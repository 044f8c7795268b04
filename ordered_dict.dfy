/**
 * An insertion-ordered dictionary: the JavaScript `Map` behind the cache, and the plain objects the
 * statistics pass uses as dictionaries. Keys are kept in first-insertion order; assigning to a key that
 * is already present overwrites its value in place and keeps its position.
 */
module OrderedDict {
  import opened Wrappers

  type Dict<K, V> = seq<(K, V)>

  /** The keys, in insertion order. */
  function Keys<K, V>(d: Dict<K, V>): (ks: seq<K>)
    ensures |ks| == |d|
    ensures forall i :: 0 <= i < |d| ==> ks[i] == d[i].0
  {
    if d == [] then [] else [d[0].0] + Keys(d[1..])
  }

  /** The well-formedness of a dictionary: no key occurs twice. */
  predicate DistinctKeys<K(==), V>(d: Dict<K, V>) {
    d == [] || (d[0].0 !in Keys(d[1..]) && DistinctKeys(d[1..]))
  }

  /** The value stored under `k`, if any (`map.get(k)`, `obj[k]`). */
  function Lookup<K(==), V>(d: Dict<K, V>, k: K): (r: Option<V>)
    ensures r.None? <==> k !in Keys(d)
  {
    if d == [] then None
    else if d[0].0 == k then Some(d[0].1)
    else Lookup(d[1..], k)
  }

  /** Assignment `map.set(k, v)` / `obj[k] = v`: overwrite in place, or append a new key at the end. */
  function Put<K(==,!new), V(!new)>(d: Dict<K, V>, k: K, v: V): (r: Dict<K, V>)
    ensures Keys(r) == if k in Keys(d) then Keys(d) else Keys(d) + [k]
    ensures forall k' :: Lookup(r, k') == if k' == k then Some(v) else Lookup(d, k')
  {
    if d == [] then [(k, v)]
    else if d[0].0 == k then [(k, v)] + d[1..]
    else [d[0]] + Put(d[1..], k, v)
  }

  /** A value found under `k` is stored in `d` together with `k`. */
  lemma {:induction false} LookupFound<K, V>(d: Dict<K, V>, k: K)
    ensures Lookup(d, k).Some? ==> (k, Lookup(d, k).value) in d
  {
    if d != [] && d[0].0 != k {
      LookupFound(d[1..], k);
    }
  }

  /** Assignment brings in no pair other than the one assigned. */
  lemma {:induction false} PutPairs<K(!new), V(!new)>(d: Dict<K, V>, k: K, v: V)
    ensures forall p :: p in Put(d, k, v) ==> p in d || p == (k, v)
  {
    if d != [] && d[0].0 != k {
      PutPairs(d[1..], k, v);
      assert Put(d, k, v) == [d[0]] + Put(d[1..], k, v);
    }
  }

  /** Sum of a numeric projection of the values. */
  function SumBy<K, V>(d: Dict<K, V>, f: V -> int): int {
    if d == [] then 0 else f(d[0].1) + SumBy(d[1..], f)
  }

  lemma DistinctKeysTail<K, V>(d: Dict<K, V>)
    requires DistinctKeys(d) && d != []
    ensures DistinctKeys(d[1..]) && d[0].0 !in Keys(d[1..])
  {
    assert Keys(d[1..]) == Keys(d)[1..];
  }

  /** `map.delete(map.keys().next().value)`: dropping the first-inserted key leaves every other entry. */
  lemma DropOldest<K, V>(d: Dict<K, V>)
    requires DistinctKeys(d) && d != []
    ensures DistinctKeys(d[1..])
    ensures Keys(d[1..]) == Keys(d)[1..]
    ensures forall k :: Lookup(d[1..], k) == if k == d[0].0 then None else Lookup(d, k)
  {
    DistinctKeysTail(d);
    assert Keys(d[1..]) == Keys(d)[1..];
  }

  lemma PutKeepsDistinct<K(!new), V(!new)>(d: Dict<K, V>, k: K, v: V)
    requires DistinctKeys(d)
    ensures DistinctKeys(Put(d, k, v))
  {
    var ks := Keys(d);
    if k !in ks {
      assert forall i :: 0 <= i < |ks| ==> (ks + [k])[i] == ks[i];
    }
  }

  /** Assigning `v` to `k` changes the sum by what `v` adds minus what the previous value of `k` held. */
  lemma {:induction false} SumByPut<K(!new), V(!new)>(d: Dict<K, V>, k: K, v: V, f: V -> int)
    requires DistinctKeys(d)
    ensures SumBy(Put(d, k, v), f) == SumBy(d, f) + f(v) - (match Lookup(d, k) case Some(old_v) => f(old_v) case None => 0)
  {
    if d == [] {
    } else if d[0].0 == k {
      DistinctKeysTail(d);
      assert Put(d, k, v)[1..] == d[1..];
    } else {
      DistinctKeysTail(d);
      SumByPut(d[1..], k, v, f);
      assert Put(d, k, v)[1..] == Put(d[1..], k, v);
    }
  }
}
