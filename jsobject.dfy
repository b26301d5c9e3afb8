/**
 * A plain JavaScript object used as a dictionary keyed by strings (`const users = {}`).
 * Such an object remembers the order in which its keys were first added, and
 * `Object.values` lists the values in that order: assigning to a key that is
 * already present keeps its place, `delete` removes the key from the order.
 */
module JsObject {
  import opened Wrappers
  import opened Seqs

  /** `keys` without `k`, order kept. */
  function RemoveKey(keys: seq<string>, k: string): (r: seq<string>)
    ensures forall x :: x in r <==> x in keys && x != k
    ensures Distinct(keys) ==> Distinct(r)
    ensures IsSubsequence(r, keys)
    ensures k !in keys ==> r == keys
  {
    if keys == [] then []
    else
      var rest := RemoveKey(keys[1..], k);
      assert forall x :: x in keys <==> x == keys[0] || x in keys[1..];
      if keys[0] == k then rest
      else
        assert Distinct(keys) ==> keys[0] !in keys[1..];
        assert ([keys[0]] + rest)[1..] == rest;
        [keys[0]] + rest
  }

  /** An object: the insertion order of its keys and the value of each key. */
  datatype Dict<V(==,!new)> = Dict(keys: seq<string>, entries: map<string, V>) {

    /** The order lists every key of the object exactly once. */
    ghost predicate Valid() {
      Distinct(keys) && forall k :: k in entries <==> k in keys
    }

    /** `obj[k]`, `undefined` when the key is absent. */
    function Get(k: string): (r: Option<V>)
      ensures r.Some? <==> k in entries
      ensures r.Some? ==> r.value == entries[k]
    {
      if k in entries then Some(entries[k]) else None
    }

    /** `obj[k] = v`: a new key goes last in the order, an existing one keeps its place. */
    function Set(k: string, v: V): (d: Dict<V>)
      ensures Valid() ==> d.Valid()
      ensures d.entries == entries[k := v]
      ensures Valid() && k in entries ==> d.keys == keys
      ensures Valid() && k !in entries ==> d.keys == keys + [k]
    {
      if k in entries then Dict(keys, entries[k := v]) else Dict(keys + [k], entries[k := v])
    }

    /** `delete obj[k]`: a no-op when the key is absent. */
    function Delete(k: string): (d: Dict<V>)
      ensures Valid() ==> d.Valid()
      ensures d.entries == entries - {k}
      ensures forall x :: x in d.keys <==> x in keys && x != k
      ensures IsSubsequence(d.keys, keys)
      ensures Valid() && k !in entries ==> d == this
    {
      Dict(RemoveKey(keys, k), entries - {k})
    }

    /** `Object.values(obj)`: the values, in key order. */
    function Values(): (vs: seq<V>)
      requires Valid()
      ensures |vs| == |keys|
      ensures forall i :: 0 <= i < |keys| ==> vs[i] == entries[keys[i]]
      ensures forall v :: v in vs <==> v in entries.Values
    {
      var vs := seq(|keys|, i requires 0 <= i < |keys| => entries[keys[i]]);
      assert forall v :: v in entries.Values ==>
        exists k :: k in keys && entries[k] == v;
      assert forall k :: k in keys ==> exists i :: 0 <= i < |keys| && keys[i] == k;
      vs
    }
  }

  /** `{}`. */
  function Empty<V(==,!new)>(): (d: Dict<V>)
    ensures d.Valid() && d.entries == map[] && d.Values() == []
  {
    Dict([], map[])
  }

  /** Overwriting a key keeps every value in place except the one at that key's position. */
  lemma SetExistingKeepsOrder<V(!new)>(d: Dict<V>, i: nat, v: V)
    requires d.Valid() && i < |d.keys|
    ensures d.Set(d.keys[i], v).Values() == d.Values()[i := v]
  {
  }

  /** Adding a key appends its value to `Object.values`. */
  lemma SetNewAppends<V(!new)>(d: Dict<V>, k: string, v: V)
    requires d.Valid() && k !in d.entries
    ensures d.Set(k, v).Values() == d.Values() + [v]
  {
  }

  /** Adding a new key and deleting it again gives back the same object. */
  lemma SetThenDeleteRestores<V(!new)>(d: Dict<V>, k: string, v: V)
    requires d.Valid() && k !in d.entries
    ensures d.Set(k, v).Delete(k) == d
  {
    assert RemoveKey(d.keys + [k], k) == d.keys by {
      RemoveKeyAppended(d.keys, k);
    }
    assert d.entries[k := v] - {k} == d.entries;
  }

  lemma {:induction false} RemoveKeyAppended(keys: seq<string>, k: string)
    requires k !in keys
    ensures RemoveKey(keys + [k], k) == keys
    decreases |keys|
  {
    if keys == [] {
      assert [] + [k] == [k];
    } else {
      assert (keys + [k])[1..] == keys[1..] + [k];
      RemoveKeyAppended(keys[1..], k);
    }
  }
}
