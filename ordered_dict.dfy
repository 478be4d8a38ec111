/**
 * The insertion-ordered dictionary that holds the client's cookies: a
 * sequence of key/value pairs in the order the keys were first inserted.
 */
module OrderedDict {
  import opened Wrappers

  type Dict<K, V> = seq<(K, V)>

  /** No key appears twice. */
  predicate DistinctKeys<K(==), V>(d: Dict<K, V>) {
    forall i, j :: 0 <= i < j < |d| ==> d[i].0 != d[j].0
  }

  /** `k` is one of the keys. */
  predicate HasKey<K(==), V>(d: Dict<K, V>, k: K) {
    exists i :: 0 <= i < |d| && d[i].0 == k
  }

  /** The value stored under `k`, if any (`d.get(k)`). */
  function Get<K(==), V>(d: Dict<K, V>, k: K): Option<V> {
    if d == [] then None
    else if d[0].0 == k then Some(d[0].1)
    else Get(d[1..], k)
  }

  /** `d[k] = v`: overwrites the value of an existing key in its place, or appends. */
  function Put<K(==), V>(d: Dict<K, V>, k: K, v: V): Dict<K, V> {
    if d == [] then [(k, v)]
    else if d[0].0 == k then [(k, v)] + d[1..]
    else [d[0]] + Put(d[1..], k, v)
  }

  /** After `d[k] = v`, `k` maps to `v` and every other key keeps its value. */
  lemma {:induction false} PutGet<K, V>(d: Dict<K, V>, k: K, v: V, k': K)
    ensures Get(Put(d, k, v), k') == if k' == k then Some(v) else Get(d, k')
  {
    if d != [] && d[0].0 != k {
      PutGet(d[1..], k, v, k');
      assert Put(d, k, v)[1..] == Put(d[1..], k, v);
    }
  }

  /** Re-setting an existing key changes its value where it stands: no pair is added or moved. */
  lemma {:induction false} PutExisting<K, V>(d: Dict<K, V>, k: K, v: V, i: nat)
    requires DistinctKeys(d)
    requires i < |d| && d[i].0 == k
    ensures Put(d, k, v) == d[i := (k, v)]
  {
    if i > 0 {
      assert d[0].0 != k;
      PutExisting(d[1..], k, v, i - 1);
      assert [d[0]] + d[1..][i - 1 := (k, v)] == d[i := (k, v)];
    }
  }

  /** Setting a new key appends it after all the others. */
  lemma {:induction false} PutNew<K, V>(d: Dict<K, V>, k: K, v: V)
    requires !HasKey(d, k)
    ensures Put(d, k, v) == d + [(k, v)]
  {
    if d != [] {
      assert d[0].0 != k;
      PutNew(d[1..], k, v);
      assert [d[0]] + (d[1..] + [(k, v)]) == d + [(k, v)];
    }
  }

  /** Keys stay distinct under `d[k] = v`. */
  lemma PutKeepsKeysDistinct<K, V>(d: Dict<K, V>, k: K, v: V)
    requires DistinctKeys(d)
    ensures DistinctKeys(Put(d, k, v))
  {
    if HasKey(d, k) {
      var i :| 0 <= i < |d| && d[i].0 == k;
      PutExisting(d, k, v, i);
    } else {
      PutNew(d, k, v);
    }
  }
}
