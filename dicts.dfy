/**
 * An insertion-ordered dictionary keyed by strings, as Python's `dict` is:
 * iteration visits keys in the order they were first inserted, and assigning
 * to a key that is already present changes its value but not its position.
 */
module Dicts {

  /** No key occurs twice. */
  predicate Distinct(s: seq<string>)
  {
    forall i, j | 0 <= i < j < |s| :: s[i] != s[j]
  }

  /**
   * The keys of `keys` in the order of their first occurrence: the iteration
   * order of a dict filled by assigning the keys of `keys` one after another.
   */
  function Dedup(keys: seq<string>): (r: seq<string>)
    ensures Distinct(r)
    ensures |r| <= |keys|
    ensures forall k :: k in r <==> k in keys
    decreases |keys|
  {
    if |keys| == 0 then []
    else
      var prefix := Dedup(keys[..|keys| - 1]);
      var last := keys[|keys| - 1];
      assert keys == keys[..|keys| - 1] + [last];
      if last in prefix then prefix else prefix + [last]
  }

  datatype Dict<V> = Dict(order: seq<string>, entries: map<string, V>)
  {
    /** The iteration order lists every key exactly once. */
    ghost predicate Valid()
    {
      && Distinct(order)
      && forall k :: k in entries <==> k in order
    }

    /**
     * `d[k] = v`: a new key goes to the end of the iteration order, an existing
     * key keeps its place.
     */
    function Put(k: string, v: V): (d: Dict<V>)
      requires Valid()
      ensures d.Valid()
      ensures d.entries == entries[k := v]
      ensures k in entries ==> d.order == order
      ensures k !in entries ==> d.order == order + [k]
    {
      if k in entries then Dict(order, entries[k := v])
      else Dict(order + [k], entries[k := v])
    }

    /** `d.items()`: the key-value pairs in iteration order. */
    function Items(): (items: seq<(string, V)>)
      requires Valid()
      ensures |items| == |order|
      ensures forall i | 0 <= i < |items| :: items[i].0 == order[i] && items[i].1 == entries[order[i]]
    {
      seq(|order|, i requires 0 <= i < |order| => (order[i], entries[order[i]]))
    }
  }

  /** `{k: v for k in keys}`: every key of `keys` maps to `v`, in first-occurrence order. */
  function FromKeys<V>(keys: seq<string>, v: V): (d: Dict<V>)
    ensures d.Valid()
    ensures d.order == Dedup(keys)
    ensures forall k :: k in d.entries <==> k in keys
    ensures forall k | k in d.entries :: d.entries[k] == v
  {
    Dict(Dedup(keys), map k | k in keys :: v)
  }

  /**
   * Assigning the keys of `keys` one after another keeps the dict's order the
   * first-occurrence order of the keys assigned so far.
   */
  lemma PutNextKey<V>(d: Dict<V>, keys: seq<string>, i: nat, v: V)
    requires i < |keys|
    requires d.Valid() && d.order == Dedup(keys[..i])
    requires forall k :: k in d.entries <==> k in keys[..i]
    ensures d.Put(keys[i], v).order == Dedup(keys[..i + 1])
    ensures forall k :: k in d.Put(keys[i], v).entries <==> k in keys[..i + 1]
  {
    assert keys[..i + 1] == keys[..i] + [keys[i]];
    DedupSnoc(keys[..i], keys[i]);
  }

  /** Appending a key to a prefix extends the first-occurrence order exactly as `Put` does. */
  lemma DedupSnoc(keys: seq<string>, k: string)
    ensures Dedup(keys + [k]) == if k in keys then Dedup(keys) else Dedup(keys) + [k]
  {
    assert (keys + [k])[..|keys|] == keys;
  }
}
