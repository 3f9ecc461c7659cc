/** Values recorded under keys, and which of them the n-th occurrence of a key finds. */
module Occurrences {
  /** How many times the key at p came before p. */
  function Nth<K(==)>(keys: seq<K>, p: nat): nat
    requires p < |keys|
  {
    multiset(keys[..p])[keys[p]]
  }

  /** The values recorded under k, in order. */
  function Under<K(==), V>(keys: seq<K>, values: seq<V>, k: K): (r: seq<V>)
    requires |keys| == |values|
    ensures |r| == multiset(keys)[k]
  {
    if keys == [] then []
    else
      var n := |keys| - 1;
      assert keys == keys[..n] + [keys[n]];
      Under(keys[..n], values[..n], k) + if keys[n] == k then [values[n]] else []
  }

  lemma {:induction false} CountGrows<K>(keys: seq<K>, p: nat, q: nat)
    requires p < q <= |keys|
    ensures multiset(keys[..q])[keys[p]] > multiset(keys[..p])[keys[p]]
  {
    assert keys[..q] == keys[..p] + [keys[p]] + keys[p + 1..q];
  }

  /** A key occurs for the n-th time at most once. */
  lemma {:induction false} NthIsUnique<K>(keys: seq<K>, p: nat, q: nat)
    requires p < |keys| && q < |keys| && keys[p] == keys[q] && Nth(keys, p) == Nth(keys, q)
    ensures p == q
  {
    if p < q {
      CountGrows(keys, p, q);
    } else if q < p {
      CountGrows(keys, q, p);
    }
  }

  /** The value recorded at p is found by its key and occurrence. */
  lemma {:induction false} UnderAt<K, V>(keys: seq<K>, values: seq<V>, p: nat)
    requires |keys| == |values| && p < |keys|
    ensures var r := Under(keys, values, keys[p]); Nth(keys, p) < |r| && r[Nth(keys, p)] == values[p]
  {
    var n := |keys| - 1;
    if p < n {
      assert keys[..n][..p] == keys[..p];
      UnderAt(keys[..n], values[..n], p);
    }
  }

  /** What is found by key and occurrence was recorded there. */
  lemma {:induction false} UnderFrom<K, V>(keys: seq<K>, values: seq<V>, k: K, s: nat) returns (p: nat)
    requires |keys| == |values| && s < |Under(keys, values, k)|
    ensures p < |keys| && keys[p] == k && Nth(keys, p) == s && values[p] == Under(keys, values, k)[s]
  {
    var n := |keys| - 1;
    var before := Under(keys[..n], values[..n], k);
    if s < |before| {
      p := UnderFrom(keys[..n], values[..n], k, s);
      assert keys[..n][..p] == keys[..p];
    } else {
      p := n;
    }
  }

  lemma {:induction false} UnderStep<K, V>(keys: seq<K>, values: seq<V>, key: K, value: V, k: K)
    requires |keys| == |values|
    ensures Under(keys + [key], values + [value], k) == Under(keys, values, k) + if key == k then [value] else []
  {
    assert (keys + [key])[..|keys|] == keys && (values + [value])[..|keys|] == values;
  }
}
