/** Counters: maps from keys to counts, and what their values add up to. */
module Counting {

  function CountOf<K>(m: map<K, nat>, k: K): nat {
    if k in m then m[k] else 0
  }

  function Bump<K>(m: map<K, nat>, k: K): map<K, nat> {
    m[k := CountOf(m, k) + 1]
  }

  ghost function Pick<K, V>(m: map<K, V>): K
    requires m.Keys != {}
    ensures Pick(m) in m
  {
    var k :| k in m.Keys; k
  }

  /** The sum of the weights of all values. */
  ghost function Total<K, V>(m: map<K, V>, weight: V -> nat): nat
    decreases |m|
  {
    if m.Keys == {} then 0
    else
      assert |m - {Pick(m)}| < |m| by { Smaller(m, Pick(m)); }
      weight(m[Pick(m)]) + Total(m - {Pick(m)}, weight)
  }

  lemma Smaller<K, V>(m: map<K, V>, k: K)
    requires k in m
    ensures |m - {k}| == |m| - 1
  {
    assert (m - {k}).Keys == m.Keys - {k};
    assert |m.Keys| == |m| && |(m - {k}).Keys| == |m - {k}|;
  }

  /** Any key can be taken out first. */
  lemma {:induction false} TotalWithout<K, V>(m: map<K, V>, weight: V -> nat, k: K)
    requires k in m
    ensures Total(m, weight) == weight(m[k]) + Total(m - {k}, weight)
    decreases |m|
  {
    var j := Pick(m);
    if j != k {
      Smaller(m, j);
      Smaller(m, k);
      assert (m - {j}) - {k} == (m - {k}) - {j};
      TotalWithout(m - {j}, weight, k);
      TotalWithout(m - {k}, weight, j);
    }
  }

  lemma TotalPut<K, V>(m: map<K, V>, weight: V -> nat, k: K, v: V)
    ensures Total(m[k := v], weight) == Total(m, weight) - (if k in m then weight(m[k]) else 0) + weight(v)
  {
    var m' := m[k := v];
    TotalWithout(m', weight, k);
    assert m' - {k} == m - {k};
    if k in m {
      TotalWithout(m, weight, k);
    } else {
      assert m - {k} == m;
    }
  }
}
