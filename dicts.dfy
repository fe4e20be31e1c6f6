/**
 This module models the value of a Python `dict`: its entries and the order in
 which its keys were first inserted, which is the order `keys()` and `values()`
 enumerate them in.
 */
module Dicts {

  /** A dict: `entries` maps each key to its value, `order` lists the keys by first insertion. */
  datatype Dict<K, V> = Dict(order: seq<K>, entries: map<K, V>)

  /** No key occurs twice in `s`. */
  predicate Distinct<K(==)>(s: seq<K>)
  {
    forall i, j :: 0 <= i < j < |s| ==> s[i] != s[j]
  }

  /** The insertion order lists every key of the dict exactly once. */
  ghost predicate Valid<K(!new), V>(d: Dict<K, V>)
  {
    Distinct(d.order) && forall k :: k in d.entries <==> k in d.order
  }

  /** The empty dict `{}`. */
  function Empty<K(!new), V>(): (d: Dict<K, V>)
    ensures Valid(d) && d.entries == map[]
  {
    Dict([], map[])
  }

  /**
   `d[k] = v`: afterwards `k` maps to `v` and every other key keeps its value; an existing
   key keeps its place in the order, a new key is appended.
   */
  function Put<K(!new), V>(d: Dict<K, V>, k: K, v: V): (r: Dict<K, V>)
    ensures Valid(d) ==> Valid(r)
    ensures r.entries.Keys == d.entries.Keys + {k}
    ensures k in r.entries && r.entries[k] == v
    ensures forall j :: j in d.entries && j != k ==> j in r.entries && r.entries[j] == d.entries[j]
    ensures k in d.entries ==> r.order == d.order
    ensures k !in d.entries ==> r.order == d.order + [k]
  {
    if k in d.entries then Dict(d.order, d.entries[k := v])
    else Dict(d.order + [k], d.entries[k := v])
  }

  /** `{k: v for k, v in pairs}`: the pairs put into an empty dict one after another. */
  function Comprehension<K(!new), V>(pairs: seq<(K, V)>): (d: Dict<K, V>)
    ensures Valid(d)
  {
    if pairs == [] then Empty()
    else
      var last := pairs[|pairs| - 1];
      Put(Comprehension(pairs[..|pairs| - 1]), last.0, last.1)
  }

  /** The dict built from `pairs` has exactly the keys that occur in `pairs`. */
  lemma {:induction false} ComprehensionKeys<K(!new), V>(pairs: seq<(K, V)>)
    ensures forall k :: k in Comprehension(pairs).entries <==> exists i :: 0 <= i < |pairs| && pairs[i].0 == k
  {
    if pairs != [] {
      var init := pairs[..|pairs| - 1];
      ComprehensionKeys(init);
      forall k ensures k in Comprehension(pairs).entries <==> exists i :: 0 <= i < |pairs| && pairs[i].0 == k {
        if exists i :: 0 <= i < |init| && init[i].0 == k {
          var i :| 0 <= i < |init| && init[i].0 == k;
          assert pairs[i].0 == k;
        }
        if exists i :: 0 <= i < |pairs| && pairs[i].0 == k {
          var i :| 0 <= i < |pairs| && pairs[i].0 == k;
          if i < |init| {
            assert init[i].0 == k;
          }
        }
      }
    }
  }

  /** Last write wins: a key maps to the value of its last occurrence in `pairs`. */
  lemma {:induction false} ComprehensionLastWins<K(!new), V>(pairs: seq<(K, V)>, i: nat)
    requires i < |pairs|
    requires forall j :: i < j < |pairs| ==> pairs[j].0 != pairs[i].0
    ensures pairs[i].0 in Comprehension(pairs).entries
    ensures Comprehension(pairs).entries[pairs[i].0] == pairs[i].1
  {
    if i < |pairs| - 1 {
      var init := pairs[..|pairs| - 1];
      assert init[i] == pairs[i];
      ComprehensionLastWins(init, i);
    }
  }

  /** A duplicate-free sequence has as many elements as the set of its elements. */
  lemma {:induction false} DistinctCardinality<K(!new)>(s: seq<K>)
    requires Distinct(s)
    ensures |set k | k in s| == |s|
  {
    if s != [] {
      var init := s[..|s| - 1];
      DistinctCardinality(init);
      assert (set k | k in s) == (set k | k in init) + {s[|s| - 1]};
      assert s[|s| - 1] !in init;
    }
  }

  /** The number of entries equals the length of the insertion order. */
  lemma SizeIsOrderLength<K(!new), V>(d: Dict<K, V>)
    requires Valid(d)
    ensures |d.entries| == |d.order|
  {
    DistinctCardinality(d.order);
    assert d.entries.Keys == set k | k in d.order;
  }

  /** The dict built from `pairs` has as many entries as `pairs` has distinct keys. */
  lemma ComprehensionSize<K(!new), V>(pairs: seq<(K, V)>)
    ensures |Comprehension(pairs).entries| == |set i | 0 <= i < |pairs| :: pairs[i].0|
  {
    ComprehensionKeys(pairs);
    assert Comprehension(pairs).entries.Keys == set i | 0 <= i < |pairs| :: pairs[i].0;
  }

  /** `d.keys()`: every key once, in insertion order. */
  function Keys<K(!new), V>(d: Dict<K, V>): (r: seq<K>)
    requires Valid(d)
    ensures Distinct(r) && |r| == |d.entries|
    ensures forall k :: k in r <==> k in d.entries
  {
    SizeIsOrderLength(d);
    d.order
  }

  /** `d.values()`: the values, in the order of `keys()`; the i-th value belongs to the i-th key. */
  function Values<K(!new), V>(d: Dict<K, V>): (r: seq<V>)
    requires Valid(d)
    ensures |r| == |Keys(d)|
    ensures forall i :: 0 <= i < |r| ==> r[i] == d.entries[Keys(d)[i]]
  {
    seq(|d.order|, i requires 0 <= i < |d.order| => d.entries[d.order[i]])
  }

  /** Every value enumerated by `values()` is stored under some key, and every stored value is enumerated. */
  lemma ValuesAreStored<K(!new), V>(d: Dict<K, V>)
    requires Valid(d)
    ensures forall v :: v in Values(d) <==> exists k :: k in d.entries && d.entries[k] == v
  {
    var vs := Values(d);
    forall v ensures v in vs <==> exists k :: k in d.entries && d.entries[k] == v {
      if v in vs {
        var i :| 0 <= i < |vs| && vs[i] == v;
        assert d.order[i] in d.entries;
      }
      if exists k :: k in d.entries && d.entries[k] == v {
        var k :| k in d.entries && d.entries[k] == v;
        var i :| 0 <= i < |d.order| && d.order[i] == k;
        assert vs[i] == v;
      }
    }
  }
}
