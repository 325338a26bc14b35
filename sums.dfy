/**
 * Sums over the values of a finite map. Big maps of balances (FA2 ledgers)
 * and of escrowed tez (trade registries) are summed with MapSum; the lemmas
 * say how a single-key update changes the sum.
 */
module Sums {

  /** Some key of a non-empty map (a fixed choice, so that MapSum is a function). */
  ghost function Pick<K>(m: map<K, nat>): (k: K)
    requires |m| > 0
    ensures k in m
  {
    var k :| k in m; k
  }

  /** The sum of all values of `m`. */
  ghost function MapSum<K>(m: map<K, nat>): nat
    decreases |m|
  {
    if |m| == 0 then 0 else var k := Pick(m); m[k] + MapSum(m - {k})
  }

  /** The value at `k` if present, 0 otherwise (the `get(key, 0)` of a big map). */
  function Get<K>(m: map<K, nat>, k: K): nat
  {
    if k in m then m[k] else 0
  }

  lemma {:induction false} MapSumRemove<K>(m: map<K, nat>, k: K)
    requires k in m
    ensures MapSum(m) == m[k] + MapSum(m - {k})
    decreases |m|
  {
    var j := Pick(m);
    if j != k {
      var mj, mk := m - {j}, m - {k};
      assert |mj| == |m| - 1;
      MapSumRemove(mj, k);
      assert |mk| == |m| - 1;
      MapSumRemove(mk, j);
      assert mj - {k} == mk - {j};
    }
  }

  /** Writing `v` at `k` replaces the old contribution of `k` (0 if absent) by `v`. */
  lemma {:induction false} MapSumUpdate<K>(m: map<K, nat>, k: K, v: nat)
    ensures MapSum(m[k := v]) + Get(m, k) == MapSum(m) + v
  {
    var m' := m[k := v];
    MapSumRemove(m', k);
    assert m'[k] == v;
    if k in m {
      MapSumRemove(m, k);
      assert m' - {k} == m - {k};
    } else {
      assert m' - {k} == m;
    }
  }
}
