/**
 * Listing a map: ranging over a Go map yields every key once, with its
 * value, in an order the program does not control. The views that
 * accumulate per-key figures in a map and then copy them into a slice
 * share this step, and the totals of what they list.
 */
module Listing {
  import opened Sorting

  datatype Entry<K, V> = Entry(key: K, value: V)

  /** `es` holds every key of `m` once, with its value, in some order. */
  ghost predicate Lists<K, V>(es: seq<Entry<K, V>>, m: map<K, V>) {
    (forall i :: 0 <= i < |es| ==> es[i].key in m && m[es[i].key] == es[i].value) &&
    (forall k :: k in m ==> exists i :: 0 <= i < |es| && es[i].key == k) &&
    (forall i, j :: 0 <= i < j < |es| ==> es[i].key != es[j].key)
  }

  /** The values paired with their keys, in order: a slice of records seen as map entries. */
  function KeyedBy<K, V>(vs: seq<V>, key: V -> K): (es: seq<Entry<K, V>>)
    ensures |es| == |vs| && forall i :: 0 <= i < |vs| ==> es[i] == Entry(key(vs[i]), vs[i])
  {
    seq(|vs|, i requires 0 <= i < |vs| => Entry(key(vs[i]), vs[i]))
  }

  /** `es` lists the entries of `m` whose keys are not in `keys`. */
  ghost predicate ListsExcept<K, V>(es: seq<Entry<K, V>>, m: map<K, V>, keys: set<K>) {
    (forall i :: 0 <= i < |es| ==> es[i].key in m && m[es[i].key] == es[i].value && es[i].key !in keys) &&
    (forall k :: k in m && k !in keys ==> exists i :: 0 <= i < |es| && es[i].key == k) &&
    (forall i, j :: 0 <= i < j < |es| ==> es[i].key != es[j].key)
  }

  /** The `for k, v := range m` loop that appends each pair to a slice. */
  method ListMap<K, V>(m: map<K, V>) returns (es: seq<Entry<K, V>>)
    ensures Lists(es, m)
  {
    es := [];
    var keys := m.Keys;
    while keys != {}
      invariant keys <= m.Keys && ListsExcept(es, m, keys)
      decreases |keys|
    {
      var k :| k in keys;
      ListsStep(es, m, keys, k);
      es := es + [Entry(k, m[k])];
      keys := keys - {k};
    }
  }

  /** Listing the entry of one more key. */
  lemma ListsStep<K, V>(es: seq<Entry<K, V>>, m: map<K, V>, keys: set<K>, k: K)
    requires keys <= m.Keys && k in keys && ListsExcept(es, m, keys)
    ensures ListsExcept(es + [Entry(k, m[k])], m, keys - {k})
  {
    var next := es + [Entry(k, m[k])];
    forall e | e in m && e !in keys - {k}
      ensures exists i :: 0 <= i < |next| && next[i].key == e
    {
      if e == k {
        assert next[|next| - 1].key == e;
      } else {
        var i :| 0 <= i < |es| && es[i].key == e;
        assert next[i] == es[i];
      }
    }
  }

  /** A reordering of a listing is a listing of the same map. */
  lemma ListsPermutation<K, V>(m: map<K, V>, es: seq<Entry<K, V>>, other: seq<Entry<K, V>>)
    requires Lists(es, m) && multiset(other) == multiset(es)
    ensures Lists(other, m)
  {
    assert Distinct(es);
    DistinctPermutation(es, other);
    forall i | 0 <= i < |other|
      ensures other[i].key in m && m[other[i].key] == other[i].value
    {
      assert other[i] in multiset(es);
    }
    forall k | k in m
      ensures exists i :: 0 <= i < |other| && other[i].key == k
    {
      var i :| 0 <= i < |es| && es[i].key == k;
      assert es[i] in multiset(other);
      var j :| 0 <= j < |other| && other[j] == es[i];
    }
    forall i, j | 0 <= i < j < |other|
      ensures other[i].key != other[j].key
    {
      assert other[i] != other[j];
      assert other[i].value == m[other[i].key] && other[j].value == m[other[j].key];
    }
  }

  /** The sum of the listed values. */
  function Total<K>(es: seq<Entry<K, real>>): real {
    if es == [] then 0.0 else Total(es[..|es| - 1]) + es[|es| - 1].value
  }

  lemma {:induction false} TotalAppend<K>(a: seq<Entry<K, real>>, b: seq<Entry<K, real>>)
    ensures Total(a + b) == Total(a) + Total(b)
    decreases |b|
  {
    if b != [] {
      assert (a + b)[..|a + b| - 1] == a + b[..|b| - 1];
      TotalAppend(a, b[..|b| - 1]);
    } else {
      assert a + b == a;
    }
  }

  /** The sum of a map's values, one key at a time. */
  ghost function MapTotal<K>(m: map<K, real>): real
    decreases |m|
  {
    if |m| == 0 then 0.0
    else
      var k := SomeKey(m);
      assert |m - {k}| < |m| by { assert (m - {k}).Keys == m.Keys - {k}; }
      m[k] + MapTotal(m - {k})
  }

  /** Some key of a non-empty map. */
  ghost function SomeKey<K, V>(m: map<K, V>): (k: K)
    requires |m| > 0
    ensures k in m
  {
    var k :| k in m; k
  }

  /** Any key may be taken out first. */
  lemma {:induction false} MapTotalAny<K>(m: map<K, real>, x: K)
    requires x in m
    ensures MapTotal(m) == m[x] + MapTotal(m - {x})
    decreases |m|
  {
    var k := SomeKey(m);
    if k != x {
      assert (m - {k}).Keys == m.Keys - {k};
      assert (m - {x}).Keys == m.Keys - {x};
      MapTotalAny(m - {k}, x);
      MapTotalAny(m - {x}, k);
      assert m - {k} - {x} == m - {x} - {k};
    }
  }

  /** Adding to one key's value adds to the total; a new key brings its value. */
  lemma MapTotalAdd<K>(m: map<K, real>, k: K, a: real)
    ensures MapTotal(m[k := (if k in m then m[k] else 0.0) + a]) == MapTotal(m) + a
  {
    var next := m[k := (if k in m then m[k] else 0.0) + a];
    MapTotalAny(next, k);
    if k in m {
      MapTotalAny(m, k);
      assert next - {k} == m - {k};
    } else {
      assert next - {k} == m;
    }
  }

  /** Listing a map lists its total. */
  lemma {:induction false} ListsTotal<K>(es: seq<Entry<K, real>>, m: map<K, real>)
    requires Lists(es, m)
    ensures Total(es) == MapTotal(m)
    decreases |es|
  {
    if es == [] {
      assert forall k :: k !in m;
      assert m == map[];
    } else {
      var last := es[|es| - 1];
      var init := es[..|es| - 1];
      var rest := m - {last.key};
      forall k | k in rest
        ensures exists i :: 0 <= i < |init| && init[i].key == k
      {
        var i :| 0 <= i < |es| && es[i].key == k;
        assert init[i] == es[i];
      }
      assert Lists(init, rest);
      ListsTotal(init, rest);
      MapTotalAny(m, last.key);
    }
  }

  /** A listing has as many entries as the map has keys. */
  lemma {:induction false} ListsLength<K, V>(es: seq<Entry<K, V>>, m: map<K, V>)
    requires Lists(es, m)
    ensures |es| == |m|
    decreases |es|
  {
    if es == [] {
      assert forall k :: k !in m;
      assert m == map[];
    } else {
      var last := es[|es| - 1];
      var init := es[..|es| - 1];
      var rest := m - {last.key};
      forall k | k in rest
        ensures exists i :: 0 <= i < |init| && init[i].key == k
      {
        var i :| 0 <= i < |es| && es[i].key == k;
        assert init[i] == es[i];
      }
      assert Lists(init, rest);
      ListsLength(init, rest);
      assert rest.Keys == m.Keys - {last.key};
    }
  }
}
