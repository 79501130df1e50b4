/**
  Sums over finite maps, used for the byte accounting of a whole store.
 */
module Sums {
  ghost function MapSum(m: map<string, nat>): nat
    decreases |m|
  {
    if m == map[] then 0
    else
      var k :| k in m;
      m[k] + MapSum(m - {k})
  }

  /** The sum does not depend on the order in which keys are taken. */
  lemma {:induction false} MapSumSplit(m: map<string, nat>, k: string)
    requires k in m
    ensures MapSum(m) == m[k] + MapSum(m - {k})
    decreases |m|
  {
    var j :| j in m && MapSum(m) == m[j] + MapSum(m - {j});
    if j != k {
      MapSumSplit(m - {j}, k);
      MapSumSplit(m - {k}, j);
      assert m - {j} - {k} == m - {k} - {j};
    }
  }

  lemma MapSumUpdate(m: map<string, nat>, k: string, v: nat)
    ensures MapSum(m[k := v]) == MapSum(m - {k}) + v
    ensures MapSum(m) == MapSum(m - {k}) + (if k in m then m[k] else 0)
  {
    MapSumSplit(m[k := v], k);
    assert m[k := v] - {k} == m - {k};
    if k in m { MapSumSplit(m, k); } else { assert m - {k} == m; }
  }

  /** Dropping entries, or replacing values by smaller ones, cannot raise the sum. */
  lemma {:induction false} MapSumMonotone(a: map<string, nat>, b: map<string, nat>)
    requires a.Keys <= b.Keys
    requires forall k :: k in a ==> a[k] <= b[k]
    ensures MapSum(a) <= MapSum(b)
    decreases |a|
  {
    if a != map[] {
      var k :| k in a;
      MapSumSplit(a, k);
      MapSumSplit(b, k);
      MapSumMonotone(a - {k}, b - {k});
    }
  }

  lemma MapSumAtLeast(m: map<string, nat>, k: string)
    requires k in m
    ensures m[k] <= MapSum(m)
  {
    MapSumSplit(m, k);
  }

  lemma {:induction false} MapSumUnion(a: map<string, nat>, b: map<string, nat>)
    requires forall x :: x in a ==> x !in b
    ensures MapSum(a + b) == MapSum(a) + MapSum(b)
    decreases |a|
  {
    var all := a + b;
    if a == map[] {
      assert all == b;
    } else {
      var k :| k in a;
      UnionMinus(a, b, k);
      MapSumUnion(a - {k}, b);
      MapSumSplit(a, k);
      MapSumSplit(all, k);
    }
  }

  lemma UnionMinus(a: map<string, nat>, b: map<string, nat>, k: string)
    requires (forall x :: x in a ==> x !in b) && k in a
    ensures (a + b) - {k} == (a - {k}) + b && k in a + b && (a + b)[k] == a[k]
    ensures |a - {k}| < |a|
  {}
}
