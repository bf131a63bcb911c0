/** The sum of the values of a finite map, and how point updates change it. */
module Sums {

  ghost function MapSum<K(!new)>(m: map<K, int>): int
  {
    if m == map[] then 0
    else
      var k :| k in m;
      m[k] + MapSum(m - {k})
  }

  lemma {:induction false} SumRemove<K(!new)>(m: map<K, int>, k: K)
    requires k in m
    ensures MapSum(m) == m[k] + MapSum(m - {k})
    decreases |m|
  {
    var p :| p in m && MapSum(m) == m[p] + MapSum(m - {p});
    if p != k {
      SumRemove(m - {p}, k);
      SumRemove(m - {k}, p);
      assert m - {p} - {k} == m - {k} - {p};
    }
  }

  lemma SumUpdate<K(!new)>(m: map<K, int>, k: K, v: int)
    ensures MapSum(m[k := v]) == MapSum(m) - (if k in m then m[k] else 0) + v
  {
    SumRemove(m[k := v], k);
    if k in m {
      SumRemove(m, k);
      assert m[k := v] - {k} == m - {k};
    } else {
      assert m[k := v] - {k} == m;
    }
  }

  lemma {:induction false} SumNonNegative<K(!new)>(m: map<K, int>)
    requires forall k :: k in m ==> 0 <= m[k]
    ensures 0 <= MapSum(m)
    ensures forall k :: k in m ==> m[k] <= MapSum(m)
    decreases |m|
  {
    forall k | k in m
      ensures m[k] <= MapSum(m)
    {
      SumRemove(m, k);
      SumNonNegative(m - {k});
    }
    if m != map[] {
      var k :| k in m;
      assert m[k] <= MapSum(m);
    }
  }

  /** Adds `d` to the entry of `k`, starting it from zero. */
  function Bump<K>(m: map<K, int>, k: K, d: int): map<K, int>
  {
    m[k := (if k in m then m[k] else 0) + d]
  }

  lemma SumBump<K(!new)>(m: map<K, int>, k: K, d: int)
    ensures MapSum(Bump(m, k, d)) == MapSum(m) + d
  {
    SumUpdate(m, k, (if k in m then m[k] else 0) + d);
  }

  /** Each entry capped on its own. */
  ghost function Capped<K(!new)>(m: map<K, int>, cap: int): map<K, int>
  {
    map k | k in m :: if m[k] <= cap then m[k] else cap
  }

  /** Capping the entries of a non-negative map first does not change its capped sum. */
  lemma {:induction false} CappedSum<K(!new)>(m: map<K, int>, cap: nat)
    requires forall k :: k in m ==> 0 <= m[k]
    ensures MapSum<K>(m) <= cap ==> MapSum<K>(Capped(m, cap)) == MapSum<K>(m)
    ensures MapSum<K>(m) > cap ==> MapSum<K>(Capped(m, cap)) >= cap
    decreases |m|
  {
    if m != map[] {
      var k :| k in m;
      SumRemove(m, k);
      SumRemove(Capped(m, cap), k);
      assert Capped(m, cap) - {k} == Capped(m - {k}, cap);
      SumNonNegative(m - {k});
      SumNonNegative(Capped(m - {k}, cap));
      CappedSum(m - {k}, cap);
    } else {
      assert Capped(m, cap) == map[];
    }
  }
}
