/** `dict.setdefault(key, []).append(value)`: lists collected under keys, the keys
    in the order of their first use. */
module Groups {
  import opened Sorting

  datatype Groups<K(!new,==), V> = Groups(keys: seq<K>, lists: map<K, seq<V>>) {

    function Get(k: K): seq<V> {
      if k in lists then lists[k] else []
    }

    function Append(k: K, v: V): Groups<K, V> {
      if k in lists then Groups(keys, lists[k := lists[k] + [v]])
      else Groups(keys + [k], lists[k := [v]])
    }

    ghost predicate Valid() {
      && (forall i, j | 0 <= i < j < |keys| :: keys[i] != keys[j])
      && (forall k :: k in keys <==> k in lists)
      && (forall k | k in lists :: lists[k] != [])
    }
  }

  /** Collecting a stream of key/value pairs. */
  function Collect<K(!new,==), V>(pairs: seq<(K, V)>): Groups<K, V> {
    if pairs == [] then Groups([], map[]) else
    var last := pairs[|pairs| - 1];
    Collect(pairs[..|pairs| - 1]).Append(last.0, last.1)
  }

  /** The values that belong to one key, in stream order. */
  function Values<K(==), V>(pairs: seq<(K, V)>, k: K): seq<V> {
    if pairs == [] then [] else
    Values(pairs[..|pairs| - 1], k) +
    if pairs[|pairs| - 1].0 == k then [pairs[|pairs| - 1].1] else []
  }

  lemma CollectAppend<K(!new), V>(pairs: seq<(K, V)>, pair: (K, V))
    ensures Collect(pairs + [pair]) == Collect(pairs).Append(pair.0, pair.1)
  {
  }

  /** Collecting partitions the stream: a valid dictionary whose entry for each key
      is that key's subsequence. */
  lemma {:induction false} CollectPartitions<K(!new), V>(pairs: seq<(K, V)>)
    ensures Collect(pairs).Valid()
    ensures forall k :: Collect(pairs).Get(k) == Values(pairs, k)
  {
    if pairs != [] {
      CollectPartitions(pairs[..|pairs| - 1]);
    }
  }

  lemma {:induction false} ValuesAppend<K, V>(pairs: seq<(K, V)>, more: seq<(K, V)>, k: K)
    ensures Values(pairs + more, k) == Values(pairs, k) + Values(more, k)
  {
    if more == [] {
      assert pairs + more == pairs;
    } else {
      assert (pairs + more)[..|pairs + more| - 1] == pairs + more[..|more| - 1];
      ValuesAppend(pairs, more[..|more| - 1], k);
    }
  }

  /** Each value is collected as often as the stream delivers it. */
  lemma {:induction false} ValuesCount<K, V>(pairs: seq<(K, V)>, k: K, v: V)
    ensures multiset(Values(pairs, k))[v] == multiset(pairs)[(k, v)]
  {
    if pairs != [] {
      assert pairs == pairs[..|pairs| - 1] + [pairs[|pairs| - 1]];
      ValuesCount(pairs[..|pairs| - 1], k, v);
    }
  }

  /** A total over the lists of some of the keys. */
  function TotalOver<K(!new), V>(g: Groups<K, V>, keys: seq<K>, weight: V -> real): real {
    if keys == [] then 0.0 else Sum(g.Get(keys[0]), weight) + TotalOver(g, keys[1..], weight)
  }

  lemma {:induction false} TotalOverAppend<K(!new), V>(g: Groups<K, V>, keys: seq<K>, k: K, weight: V -> real)
    ensures TotalOver(g, keys + [k], weight) == TotalOver(g, keys, weight) + Sum(g.Get(k), weight)
  {
    if keys == [] {
      assert keys + [k] == [k];
    } else {
      assert (keys + [k])[1..] == keys[1..] + [k];
      TotalOverAppend(g, keys[1..], k, weight);
    }
  }

  lemma {:induction false} TotalOverStep<K(!new), V>(g: Groups<K, V>, keys: seq<K>, k: K, v: V, weight: V -> real)
    requires forall i, j | 0 <= i < j < |keys| :: keys[i] != keys[j]
    ensures TotalOver(g.Append(k, v), keys, weight) == TotalOver(g, keys, weight) + if k in keys then weight(v) else 0.0
  {
    if keys != [] {
      SumAppend(g.Get(k), [v], weight);
      TotalOverStep(g, keys[1..], k, v, weight);
      assert k in keys <==> keys[0] == k || k in keys[1..];
      if keys[0] == k { assert k !in keys[1..]; }
    }
  }

  /** The weights of a stream. */
  function TotalOf<K(!new), V>(pairs: seq<(K, V)>, weight: V -> real): real {
    if pairs == [] then 0.0 else TotalOf(pairs[..|pairs| - 1], weight) + weight(pairs[|pairs| - 1].1)
  }

  /** Conservation: totals over the groups are totals over the stream. */
  lemma {:induction false} CollectConserves<K(!new), V>(pairs: seq<(K, V)>, weight: V -> real)
    ensures var g := Collect(pairs); TotalOver(g, g.keys, weight) == TotalOf(pairs, weight)
  {
    if pairs != [] {
      var before := pairs[..|pairs| - 1];
      var (k, v) := pairs[|pairs| - 1];
      var g := Collect(before);
      CollectConserves(before, weight);
      CollectPartitions(before);
      TotalOverStep(g, g.keys, k, v, weight);
      if k !in g.lists {
        TotalOverAppend(g.Append(k, v), g.keys, k, weight);
        assert g.Append(k, v).Get(k) == [v];
      }
    }
  }

  lemma {:induction false} TotalOfAppend<K(!new), V>(pairs: seq<(K, V)>, more: seq<(K, V)>, weight: V -> real)
    ensures TotalOf(pairs + more, weight) == TotalOf(pairs, weight) + TotalOf(more, weight)
  {
    if more == [] {
      assert pairs + more == pairs;
    } else {
      assert (pairs + more)[..|pairs + more| - 1] == pairs + more[..|more| - 1];
      TotalOfAppend(pairs, more[..|more| - 1], weight);
    }
  }
}
