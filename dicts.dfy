/** Python's `dict`: a finite map that remembers the order in which its keys
    were first inserted. Iteration (`.values()`, `.items()`) follows `keys`;
    assigning to a key already present keeps its position; `del` removes the
    key from the order. */
module Dicts {
  import opened Sequences

  datatype Dict<K(!new), V> = Dict(keys: seq<K>, entries: map<K, V>) {

    ghost predicate Valid() {
      && Distinct(keys)
      && (forall k :: k in entries <==> k in keys)
    }

    /** `d[k] = v`. */
    function Set(k: K, v: V): (r: Dict<K, V>)
      requires Valid()
      ensures r.Valid()
      ensures r.entries == entries[k := v]
      ensures k in entries ==> r.keys == keys
      ensures k !in entries ==> r.keys == keys + [k]
    {
      if k in entries then Dict(keys, entries[k := v]) else Dict(keys + [k], entries[k := v])
    }

    /** `del d[k]`. */
    function Remove(k: K): (r: Dict<K, V>)
      requires Valid()
      ensures r.Valid()
      ensures r.entries == entries - {k}
      ensures r.keys == Without(keys, k)
    {
      RemoveKeepsValid(this, k);
      Dict(Without(keys, k), entries - {k})
    }

    /** `{**self, k1: v1, k2: v2, ...}`: the pairs are assigned one after the other. */
    function Update(pairs: seq<(K, V)>): (r: Dict<K, V>)
      requires Valid()
      ensures r.Valid()
      decreases |pairs|
    {
      if pairs == [] then this else Set(pairs[0].0, pairs[0].1).Update(pairs[1..])
    }
  }

  lemma {:induction false} RemoveKeepsValid<K(!new), V>(d: Dict<K, V>, k: K)
    requires d.Valid()
    ensures Dict(Without(d.keys, k), d.entries - {k}).Valid()
  {
    WithoutMembers(d.keys, k);
    WithoutDistinct(d.keys, k);
  }

  /** A second assignment to the same key overwrites the first, in place. */
  lemma {:induction false} SetTwice<K(!new), V>(d: Dict<K, V>, k: K, v: V, w: V)
    requires d.Valid()
    ensures d.Set(k, v).Set(k, w) == d.Set(k, w)
  {
  }

  function Empty<K(!new), V>(): (d: Dict<K, V>)
    ensures d.Valid() && d.keys == [] && d.entries == map[]
  {
    Dict([], map[])
  }

  /** The dictionary display `{k1: v1, k2: v2, ...}`. */
  function FromPairs<K(!new), V>(pairs: seq<(K, V)>): (d: Dict<K, V>)
    ensures d.Valid()
  {
    Empty().Update(pairs)
  }

  /** Whether some pair of `pairs` has key `k`. */
  predicate HasKey<K(==), V>(pairs: seq<(K, V)>, k: K) {
    exists i :: 0 <= i < |pairs| && pairs[i].0 == k
  }

  /** The value of the last pair with key `k`. */
  function LastValue<K(==), V>(pairs: seq<(K, V)>, k: K): V
    requires HasKey(pairs, k)
  {
    if HasKey(pairs[1..], k) then LastValue(pairs[1..], k)
    else
      assert pairs[0].0 == k by {
        var i :| 0 <= i < |pairs| && pairs[i].0 == k;
        assert forall j :: 1 <= j < |pairs| ==> pairs[j] == pairs[1..][j - 1];
      }
      pairs[0].1
  }

  /** Lookup in `{**d, **pairs}`: a key of `pairs` takes the value of its last pair,
      any other key keeps the value it had in `d`. */
  lemma {:induction false} UpdateLookup<K(!new), V>(d: Dict<K, V>, pairs: seq<(K, V)>, k: K)
    requires d.Valid()
    ensures k in d.Update(pairs).entries <==> k in d.entries || HasKey(pairs, k)
    ensures HasKey(pairs, k) ==> d.Update(pairs).entries[k] == LastValue(pairs, k)
    ensures !HasKey(pairs, k) && k in d.entries ==> d.Update(pairs).entries[k] == d.entries[k]
    decreases |pairs|
  {
    if pairs != [] {
      var d' := d.Set(pairs[0].0, pairs[0].1);
      var rest := pairs[1..];
      UpdateLookup(d', rest, k);
      assert HasKey(pairs, k) <==> pairs[0].0 == k || HasKey(rest, k) by {
        if HasKey(rest, k) {
          var i :| 0 <= i < |rest| && rest[i].0 == k;
          assert pairs[i + 1].0 == k;
        }
        if HasKey(pairs, k) {
          var i :| 0 <= i < |pairs| && pairs[i].0 == k;
          if i > 0 { assert rest[i - 1].0 == k; }
        }
      }
    }
  }

  /** Keys already present keep their positions, and the key sequence only grows. */
  lemma {:induction false} UpdateKeepsOrder<K(!new), V>(d: Dict<K, V>, pairs: seq<(K, V)>)
    requires d.Valid()
    ensures |d.keys| <= |d.Update(pairs).keys|
    ensures d.Update(pairs).keys[..|d.keys|] == d.keys
    decreases |pairs|
  {
    if pairs != [] {
      var d' := d.Set(pairs[0].0, pairs[0].1);
      UpdateKeepsOrder(d', pairs[1..]);
      assert d'.keys[..|d.keys|] == d.keys;
    }
  }
}
