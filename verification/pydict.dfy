/** Python's `dict`: a finite map that remembers the order in which its keys
    were first inserted. It is modelled as a sequence of key/value pairs with
    pairwise distinct keys. Assigning to a key that is already present keeps
    that key's position; deleting a key closes the gap; iteration follows the
    sequence. `ToMap` is the order-free reading used to state contracts. */
module PyDict {
  import opened Wrappers

  type Dict<K, V> = seq<(K, V)>

  /** The keys, in insertion order. */
  function Keys<K(==), V>(d: Dict<K, V>): seq<K> {
    if |d| == 0 then [] else [d[0].0] + Keys(d[1..])
  }

  /** The values, in insertion order (Python's `list(d.values())`). */
  function Values<K(==), V>(d: Dict<K, V>): seq<V> {
    if |d| == 0 then [] else [d[0].1] + Values(d[1..])
  }

  function KeySet<K(==), V>(d: Dict<K, V>): set<K> {
    if |d| == 0 then {} else {d[0].0} + KeySet(d[1..])
  }

  /** No key occurs twice. */
  predicate Wf<K(==), V>(d: Dict<K, V>) {
    |d| == 0 || (d[0].0 !in KeySet(d[1..]) && Wf(d[1..]))
  }

  /** The order-free reading of a dict. */
  function ToMap<K(==), V>(d: Dict<K, V>): map<K, V> {
    if |d| == 0 then map[] else ToMap(d[1..])[d[0].0 := d[0].1]
  }

  /** `d.get(k, None)`. */
  function Get<K(==), V>(d: Dict<K, V>, k: K): (r: Option<V>)
    ensures r.Some? <==> k in KeySet(d)
    ensures r.Some? ==> (k, r.value) in d
  {
    if |d| == 0 then None
    else if d[0].0 == k then Some(d[0].1)
    else Get(d[1..], k)
  }

  /** `d[k] = v`: overwrite in place when `k` is present, append otherwise. */
  function Put<K(==,!new), V>(d: Dict<K, V>, k: K, v: V): (r: Dict<K, V>)
    requires Wf(d)
    ensures Wf(r)
    ensures KeySet(r) == KeySet(d) + {k}
    ensures Get(r, k) == Some(v)
    ensures forall j :: j != k ==> Get(r, j) == Get(d, j)
    ensures k in KeySet(d) ==> Keys(r) == Keys(d)
    ensures k !in KeySet(d) ==> Keys(r) == Keys(d) + [k]
    ensures forall e :: e in r ==> e in d || e == (k, v)
  {
    if |d| == 0 then [(k, v)]
    else if d[0].0 == k then [(k, v)] + d[1..]
    else
      var tail := Put(d[1..], k, v);
      assert ([d[0]] + tail)[1..] == tail;
      [d[0]] + tail
  }

  /** `del d[k]` when `k` is present; no change otherwise. */
  function Remove<K(==,!new), V>(d: Dict<K, V>, k: K): (r: Dict<K, V>)
    requires Wf(d)
    ensures Wf(r)
    ensures KeySet(r) == KeySet(d) - {k}
    ensures Get(r, k) == None
    ensures forall j :: j != k ==> Get(r, j) == Get(d, j)
    ensures k !in KeySet(d) ==> r == d
    ensures forall e :: e in r ==> e in d
  {
    if |d| == 0 then []
    else if d[0].0 == k then d[1..]
    else
      var tail := Remove(d[1..], k);
      assert ([d[0]] + tail)[1..] == tail;
      [d[0]] + tail
  }

  /** The first entry's key is never in the tail of a well-formed dict, so
      `Get` on the tail agrees with `Get` on the whole for every other key. */
  lemma {:induction false} ToMapAgreesWithGet<K, V>(d: Dict<K, V>, k: K)
    requires Wf(d)
    ensures k in ToMap(d) <==> k in KeySet(d)
    ensures k in ToMap(d) ==> Get(d, k) == Some(ToMap(d)[k])
  {
    if |d| > 0 {
      ToMapAgreesWithGet(d[1..], k);
    }
  }

  /** Inserting a fresh key and then deleting it gives back the same dict,
      order included. */
  lemma {:induction false} PutFreshThenRemove<K(!new), V>(d: Dict<K, V>, k: K, v: V)
    requires Wf(d)
    requires k !in KeySet(d)
    ensures Remove(Put(d, k, v), k) == d
  {
    if |d| > 0 {
      PutFreshThenRemove(d[1..], k, v);
      var tail := Put(d[1..], k, v);
      assert Put(d, k, v) == [d[0]] + tail;
      assert ([d[0]] + tail)[1..] == tail;
    }
  }

  /** An entry of a well-formed dict is what `Get` finds for its key. */
  lemma {:induction false} MemberGet<K, V>(d: Dict<K, V>, k: K, v: V)
    requires Wf(d) && (k, v) in d
    ensures Get(d, k) == Some(v)
  {
    if d[0] != (k, v) {
      assert (k, v) in d[1..];
      MemberKey(d[1..], k, v);
      MemberGet(d[1..], k, v);
    }
  }

  lemma {:induction false} MemberKey<K, V>(d: Dict<K, V>, k: K, v: V)
    requires (k, v) in d
    ensures k in KeySet(d)
  {
    if d[0] != (k, v) {
      assert (k, v) in d[1..];
      MemberKey(d[1..], k, v);
    }
  }

  /** Keys and values line up one to one. */
  lemma {:induction false} KeysValuesLength<K, V>(d: Dict<K, V>)
    ensures |Keys(d)| == |d| && |Values(d)| == |d|
    ensures forall i :: 0 <= i < |d| ==> Keys(d)[i] == d[i].0 && Values(d)[i] == d[i].1
  {
    if |d| > 0 {
      KeysValuesLength(d[1..]);
    }
  }

  /** Assigning to a fresh key appends exactly one entry. */
  lemma {:induction false} PutFreshAppends<K(!new), V>(d: Dict<K, V>, k: K, v: V)
    requires Wf(d) && k !in KeySet(d)
    ensures Put(d, k, v) == d + [(k, v)]
  {
    if |d| > 0 {
      PutFreshAppends(d[1..], k, v);
      assert d == [d[0]] + d[1..];
    }
  }

  /** The ordered keys list exactly the key set, each key once. */
  lemma {:induction false} KeysMatchKeySet<K, V>(d: Dict<K, V>)
    requires Wf(d)
    ensures forall k :: k in Keys(d) <==> k in KeySet(d)
    ensures forall i, j :: 0 <= i < j < |Keys(d)| ==> Keys(d)[i] != Keys(d)[j]
  {
    if |d| > 0 {
      KeysMatchKeySet(d[1..]);
      var ks := Keys(d);
      assert ks == [d[0].0] + Keys(d[1..]);
      forall i, j | 0 <= i < j < |ks| ensures ks[i] != ks[j] {
        if i == 0 {
          assert ks[j] == Keys(d[1..])[j - 1];
        } else {
          assert ks[i] == Keys(d[1..])[i - 1] && ks[j] == Keys(d[1..])[j - 1];
        }
      }
    }
  }
}
