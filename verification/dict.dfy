/**
  Insertion-ordered dictionaries with string keys, as Python dicts and
  JavaScript plain objects behave: a list of (key, value) entries with
  distinct keys. Assigning to a key that is already present replaces its
  value in place; assigning to a new key appends an entry.
 */
module Dict {
  import opened Common

  type Dict<V> = seq<(string, V)>

  function Keys<V>(d: Dict<V>): (ks: seq<string>)
    ensures |ks| == |d|
    ensures forall i :: 0 <= i < |d| ==> ks[i] == d[i].0
  {
    if |d| == 0 then [] else [d[0].0] + Keys(d[1..])
  }

  /** No key occurs twice. */
  predicate DistinctKeys<V>(d: Dict<V>) {
    forall i, j :: 0 <= i < j < |d| ==> d[i].0 != d[j].0
  }

  /** `d.get(k)`: the value stored under k, if any. */
  function Lookup<V>(d: Dict<V>, k: string): Option<V> {
    if |d| == 0 then None
    else if d[0].0 == k then Some(d[0].1)
    else Lookup(d[1..], k)
  }

  /** A lookup finds a value exactly when the key is present, and that value is stored under the key. */
  lemma {:induction false} LookupFindsKey<V>(d: Dict<V>, k: string)
    ensures Lookup(d, k).Some? <==> k in Keys(d)
    ensures Lookup(d, k).Some? ==> (k, Lookup(d, k).value) in d
    decreases |d|
  {
    if |d| > 0 && d[0].0 != k {
      LookupFindsKey(d[1..], k);
      assert Keys(d) == [d[0].0] + Keys(d[1..]);
    }
  }

  /**
    `d[k] = v` (JavaScript `obj.k = v`, Python `{**d, k: v}`): the value under
    k becomes v, the key order is kept and a new key goes to the end.
   */
  function Put<V>(d: Dict<V>, k: string, v: V): (r: Dict<V>)
    ensures Lookup(r, k) == Some(v)
    ensures k in Keys(d) ==> Keys(r) == Keys(d)
    ensures k !in Keys(d) ==> Keys(r) == Keys(d) + [k]
    ensures DistinctKeys(d) ==> DistinctKeys(r)
    decreases |d|
  {
    if |d| == 0 then [(k, v)]
    else if d[0].0 == k then
      [(k, v)] + d[1..]
    else
      var rest := Put(d[1..], k, v);
      var r := [d[0]] + rest;
      assert r[1..] == rest;
      r
  }

  /** Assigning to k leaves the value under every other key as it was. */
  lemma {:induction false} PutKeepsOthers<V>(d: Dict<V>, k: string, v: V, other: string)
    requires other != k
    ensures Lookup(Put(d, k, v), other) == Lookup(d, other)
    decreases |d|
  {
    if |d| > 0 && d[0].0 != k {
      PutKeepsOthers(d[1..], k, v, other);
      var r := Put(d, k, v);
      assert r[1..] == Put(d[1..], k, v);
    }
  }

  /** Assigns v to k only when the condition holds (`if (x) params.k = x`). */
  function PutIf<V>(d: Dict<V>, cond: bool, k: string, v: V): Dict<V> {
    if cond then Put(d, k, v) else d
  }
}
