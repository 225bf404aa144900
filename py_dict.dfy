/**
 * Python's `dict` as the export script uses it: items in insertion order,
 * `d[k] = v` replacing the value of a present key in place and appending a
 * new key at the end, and `update` storing each item of another dict in turn.
 */
module PyDict {
  import opened Wrappers

  /** A dict as its items, in insertion order. */
  type Dict<K, V> = seq<(K, V)>

  function Keys<K, V>(d: Dict<K, V>): (keys: seq<K>)
    ensures |keys| == |d| && forall i :: 0 <= i < |d| ==> keys[i] == d[i].0
  {
    if d == [] then [] else [d[0].0] + Keys(d[1..])
  }

  /** `d.values()`, in insertion order. */
  function Values<K, V>(d: Dict<K, V>): (values: seq<V>)
    ensures |values| == |d| && forall i :: 0 <= i < |d| ==> values[i] == d[i].1
  {
    if d == [] then [] else [d[0].1] + Values(d[1..])
  }

  /** No key appears twice, as in every Python dict. */
  predicate DistinctKeys<K(==), V>(d: Dict<K, V>)
  {
    forall i, j :: 0 <= i < j < |d| ==> d[i].0 != d[j].0
  }

  /** `d.get(k)`. */
  function Lookup<K(==), V>(d: Dict<K, V>, k: K): (r: Option<V>)
    ensures r.Some? <==> k in Keys(d)
    ensures r.Some? ==> (k, r.value) in d
  {
    if d == [] then None
    else if d[0].0 == k then Some(d[0].1)
    else
      assert Keys(d) == [d[0].0] + Keys(d[1..]);
      Lookup(d[1..], k)
  }

  /** `d[k] = v`. */
  function Put<K(==), V>(d: Dict<K, V>, k: K, v: V): Dict<K, V>
  {
    if d == [] then [(k, v)]
    else if d[0].0 == k then [(k, v)] + d[1..]
    else [d[0]] + Put(d[1..], k, v)
  }

  /** Storing each pair in turn, as `update` and a loop of `d[k] = v` do. */
  function PutAll<K(==), V>(d: Dict<K, V>, pairs: seq<(K, V)>): Dict<K, V>
    decreases |pairs|
  {
    if pairs == [] then d else PutAll(Put(d, pairs[0].0, pairs[0].1), pairs[1..])
  }

  /** The value of the last pair with key `k`, independent of any dict. */
  function LastValue<K(==), V>(pairs: seq<(K, V)>, k: K): (r: Option<V>)
    ensures r.Some? <==> k in Keys(pairs)
  {
    if pairs == [] then None
    else
      assert Keys(pairs) == [pairs[0].0] + Keys(pairs[1..]);
      match LastValue(pairs[1..], k)
      case Some(v) => Some(v)
      case None => if pairs[0].0 == k then Some(pairs[0].1) else None
  }

  /** `d[k] = v` stores `v` under `k` and leaves every other key's value alone. */
  lemma {:induction false} PutLookup<K, V>(d: Dict<K, V>, k: K, v: V, k': K)
    ensures Lookup(Put(d, k, v), k') == if k' == k then Some(v) else Lookup(d, k')
  {
    if d != [] && d[0].0 != k {
      PutLookup(d[1..], k, v, k');
    }
  }

  /** A present key keeps its place; a new key goes last. */
  lemma {:induction false} PutKeys<K, V>(d: Dict<K, V>, k: K, v: V)
    ensures Keys(Put(d, k, v)) == if k in Keys(d) then Keys(d) else Keys(d) + [k]
  {
    if d != [] {
      assert Keys(d) == [d[0].0] + Keys(d[1..]);
      var r := Put(d, k, v);
      if d[0].0 == k {
        assert Keys(r) == [k] + Keys(d[1..]);
        assert Keys(d)[0] == k;
      } else {
        var rest := Keys(d[1..]);
        PutKeys(d[1..], k, v);
        assert Keys(r) == [d[0].0] + Keys(Put(d[1..], k, v));
        assert k in Keys(d) <==> k in rest;
        if k !in rest {
          assert [d[0].0] + (rest + [k]) == ([d[0].0] + rest) + [k];
        }
      }
    }
  }

  /** `d[k] = v` keeps the keys distinct. */
  lemma PutDistinct<K, V>(d: Dict<K, V>, k: K, v: V)
    requires DistinctKeys(d)
    ensures DistinctKeys(Put(d, k, v))
  {
    PutKeys(d, k, v);
    var r := Put(d, k, v);
    forall i, j | 0 <= i < j < |r|
      ensures r[i].0 != r[j].0
    {
      assert Keys(r)[i] == r[i].0 && Keys(r)[j] == r[j].0;
      if k !in Keys(d) && j == |d| {
        assert Keys(r)[i] == Keys(d)[i];
      } else {
        assert Keys(r)[i] == d[i].0 && Keys(r)[j] == d[j].0;
      }
    }
  }

  /**
   * Last wins: after storing a run of pairs, a key holds the value of its
   * last pair, and a key that none of them has keeps its old value.
   */
  lemma {:induction false} PutAllLookup<K, V>(d: Dict<K, V>, pairs: seq<(K, V)>, k: K)
    ensures Lookup(PutAll(d, pairs), k) ==
              match LastValue(pairs, k) case Some(v) => Some(v) case None => Lookup(d, k)
    decreases |pairs|
  {
    if pairs != [] {
      PutLookup(d, pairs[0].0, pairs[0].1, k);
      PutAllLookup(Put(d, pairs[0].0, pairs[0].1), pairs[1..], k);
    }
  }

  /** Storing pairs keeps the keys distinct. */
  lemma {:induction false} PutAllDistinct<K, V>(d: Dict<K, V>, pairs: seq<(K, V)>)
    requires DistinctKeys(d)
    ensures DistinctKeys(PutAll(d, pairs))
    decreases |pairs|
  {
    if pairs != [] {
      PutDistinct(d, pairs[0].0, pairs[0].1);
      PutAllDistinct(Put(d, pairs[0].0, pairs[0].1), pairs[1..]);
    }
  }

  /** In a dict, the last pair with a key is the only one, so `LastValue` is the lookup. */
  lemma {:induction false} LastValueOfDict<K, V>(d: Dict<K, V>, k: K)
    requires DistinctKeys(d)
    ensures LastValue(d, k) == Lookup(d, k)
  {
    if d != [] {
      assert DistinctKeys(d[1..]);
      LastValueOfDict(d[1..], k);
      if d[0].0 == k {
        assert Keys(d[1..]) == Keys(d)[1..];
        assert k !in Keys(d[1..]);
      }
    }
  }

  /** `LastValue` over a concatenation: the later part wins. */
  lemma {:induction false} LastValueAppend<K, V>(a: seq<(K, V)>, b: seq<(K, V)>, k: K)
    ensures LastValue(a + b, k) == if LastValue(b, k).Some? then LastValue(b, k) else LastValue(a, k)
  {
    if a == [] {
      assert a + b == b;
    } else {
      assert (a + b)[0] == a[0];
      assert (a + b)[1..] == a[1..] + b;
      LastValueAppend(a[1..], b, k);
    }
  }
}
