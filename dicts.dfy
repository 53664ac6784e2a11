/**
 * Python's `dict`: a finite map that also remembers the order in which keys were first
 * inserted. The order is what `dict.items()` enumerates, and so what a stable sort of the
 * items falls back on for equal sort keys.
 */
module Dicts {
  import opened Seqs

  datatype Dict<K, V> = Dict(order: seq<K>, items: map<K, V>)
  {
    /** The order lists every present key once and nothing else. */
    ghost predicate Valid()
    {
      Distinct(order) && items.Keys == Elements(order)
    }

    /** `len(d)` */
    function Len(): nat
    {
      |items|
    }

    /** `d[k] = v`: a new key goes last, an existing key keeps its place. */
    function Put(k: K, v: V): (d: Dict<K, V>)
      requires Valid()
      ensures d.Valid()
      ensures d.items == items[k := v]
      ensures d.Len() == if k in items then Len() else Len() + 1
      ensures forall j | j in d.order && j != k :: j in order
    {
      if k in items then Dict(order, items[k := v])
      else
        assert Distinct(order + [k]) by {
          assert k !in order;
        }
        Dict(order + [k], items[k := v])
    }

    /** `del d[k]` for every `k` in `ks`; the remaining keys keep their relative order. */
    function RemoveKeys(ks: set<K>): (d: Dict<K, V>)
      requires Valid()
      ensures d.Valid()
      ensures d.items.Keys == items.Keys - ks
      ensures forall k | k in d.items :: d.items[k] == items[k]
      ensures ks <= items.Keys ==> d.Len() == Len() - |ks|
    {
      var m := items - ks;
      assert m.Keys == items.Keys - ks;
      assert ks <= items.Keys ==> |m.Keys| == |items.Keys| - |ks| by {
        if ks <= items.Keys {
          assert items.Keys == m.Keys + ks;
          assert m.Keys !! ks;
        }
      }
      Dict(FilterOut(order, ks), m)
    }

    /** `del d[k]` */
    function Del(k: K): (d: Dict<K, V>)
      requires Valid()
      ensures d.Valid()
      ensures d.items == items - {k}
      ensures d.Len() == if k in items then Len() - 1 else Len()
    {
      RemoveKeys({k})
    }

    /** `list(d.items())`: the (key, value) pairs in insertion order */
    function Items(): (ps: seq<(K, V)>)
      requires Valid()
      ensures |ps| == |order|
      ensures forall i | 0 <= i < |ps| :: ps[i].0 in items && ps[i].1 == items[ps[i].0]
      ensures forall k | k in items :: (k, items[k]) in ps
      ensures Distinct(ps)
    {
      var ps := seq(|order|, i requires 0 <= i < |order| => (order[i], items[order[i]]));
      assert forall k | k in items :: (k, items[k]) in ps by {
        forall k | k in items ensures (k, items[k]) in ps {
          var i :| 0 <= i < |order| && order[i] == k;
          assert ps[i] == (k, items[k]);
        }
      }
      ps
    }
  }

  /** The number of entries is the length of the order. */
  lemma LenIsOrderLength<K, V>(d: Dict<K, V>)
    requires d.Valid()
    ensures d.Len() == |d.order|
  {
    DistinctCard(d.order);
    assert |d.items| == |d.items.Keys|;
  }

  /** Deleting the keys of `s` one by one, in order: one more step deletes one more key. */
  lemma RemovePrefixStep<K, V>(d: Dict<K, V>, s: seq<K>, i: nat)
    requires d.Valid() && i < |s|
    ensures d.RemoveKeys(Elements(s[..i])).Del(s[i]) == d.RemoveKeys(Elements(s[..i + 1]))
  {
    RemoveKeysThenDel(d, Elements(s[..i]), s[i]);
    ElementsSnoc(s, i);
  }

  /** Before the first step nothing is deleted. */
  lemma RemovePrefixNone<K, V>(d: Dict<K, V>, s: seq<K>)
    requires d.Valid()
    ensures d.RemoveKeys(Elements(s[..0])) == d
  {
    assert Elements(s[..0]) == {};
    FilterOutAbsent(d.order, {});
    assert d.items - {} == d.items;
  }

  /** Deleting every key of `s` that way deletes `Elements(s)`. */
  lemma RemovePrefixAll<K, V>(d: Dict<K, V>, s: seq<K>)
    requires d.Valid()
    ensures d.RemoveKeys(Elements(s[..|s|])) == d.RemoveKeys(Elements(s))
  {
    ElementsAll(s);
  }

  /** Removing `ks` and then the key `k` removes `ks` and `k` together. */
  lemma RemoveKeysThenDel<K, V>(d: Dict<K, V>, ks: set<K>, k: K)
    requires d.Valid()
    ensures d.RemoveKeys(ks).Del(k) == d.RemoveKeys(ks + {k})
  {
    FilterOutTwice(d.order, ks, {k});
    assert (d.items - ks) - {k} == d.items - (ks + {k});
  }
}
