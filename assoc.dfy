/** Python dictionaries as the program uses them: insertion-ordered
    association lists. Assigning an existing key keeps its position;
    assigning a new key appends it. */
module Assoc {
  import opened Opt

  /** Every dictionary of the program is keyed by strings (paths, module names). */
  type AList<V> = seq<(string, V)>

  /** The keys in insertion order. */
  function Keys<V>(m: AList<V>): seq<string> {
    seq(|m|, i requires 0 <= i < |m| => m[i].0)
  }

  lemma KeysCons<V>(m: AList<V>)
    requires m != []
    ensures Keys(m) == [m[0].0] + Keys(m[1..])
  {
  }

  /** No key occurs twice: what every Python dict satisfies. */
  predicate DistinctKeys<V>(m: AList<V>) {
    forall i, j :: 0 <= i < j < |m| ==> m[i].0 != m[j].0
  }

  /** `m.get(k)`: the value stored under `k`, if any. */
  function Lookup<V>(m: AList<V>, k: string): (r: Option<V>)
    ensures r.None? <==> k !in Keys(m)
  {
    if m == [] then None
    else
      KeysCons(m);
      if m[0].0 == k then Some(m[0].1) else Lookup(m[1..], k)
  }

  /** `m[k] = v`. */
  function Put<V>(m: AList<V>, k: string, v: V): (r: AList<V>)
    ensures Keys(r) == if k in Keys(m) then Keys(m) else Keys(m) + [k]
    ensures Lookup(r, k) == Some(v)
    ensures forall k' :: k' != k ==> Lookup(r, k') == Lookup(m, k')
  {
    if m == [] then [(k, v)]
    else
      KeysCons(m);
      if m[0].0 == k then
        var r := [(k, v)] + m[1..];
        KeysCons(r);
        assert r[1..] == m[1..];
        r
      else
        var rest := Put(m[1..], k, v);
        var r := [m[0]] + rest;
        KeysCons(r);
        assert r[1..] == rest;
        r
  }

  /** Assigning a key keeps the keys distinct. */
  lemma PutKeepsDistinct<V>(m: AList<V>, k: string, v: V)
    requires DistinctKeys(m)
    ensures DistinctKeys(Put(m, k, v))
  {
    var r := Put(m, k, v);
    forall i, j | 0 <= i < j < |r| ensures r[i].0 != r[j].0 {
      assert Keys(r)[i] == r[i].0 && Keys(r)[j] == r[j].0;
      if j < |m| {
        assert Keys(m)[i] == m[i].0 && Keys(m)[j] == m[j].0;
      } else {
        assert Keys(m)[i] == m[i].0;
      }
    }
  }

  /** `m.setdefault(k, []).append(x)`: append `x` to the list under `k`,
      creating that list at the end of `m` when `k` is new. */
  function SetDefaultAppend<X>(m: AList<seq<X>>, k: string, x: X): (r: AList<seq<X>>)
    ensures Keys(r) == if k in Keys(m) then Keys(m) else Keys(m) + [k]
    ensures Lookup(r, k) == Some(Lookup(m, k).GetOr([]) + [x])
    ensures forall k' :: k' != k ==> Lookup(r, k') == Lookup(m, k')
  {
    Put(m, k, Lookup(m, k).GetOr([]) + [x])
  }
}
