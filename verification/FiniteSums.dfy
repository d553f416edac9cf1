/** Sums of a measure over a finite map, independent of the order in which keys are visited. */
module FiniteSums {

  ghost function SumOver<V(!new)>(m: map<string, V>, f: (string, V) -> real): real
    decreases |m|
  {
    if m == map[] then 0.0
    else
      var k :| k in m;
      f(k, m[k]) + SumOver(m - {k}, f)
  }

  /** Any key can be taken out first. */
  lemma SumTakeOut<V(!new)>(m: map<string, V>, f: (string, V) -> real, k: string)
    requires k in m
    ensures SumOver(m, f) == f(k, m[k]) + SumOver(m - {k}, f)
    decreases |m|
  {
    var first :| first in m && SumOver(m, f) == f(first, m[first]) + SumOver(m - {first}, f);
    if first != k {
      SumTakeOut(m - {first}, f, k);
      SumTakeOut(m - {k}, f, first);
      assert m - {first} - {k} == m - {k} - {first};
    }
  }

  /** Setting one key changes the sum by the change of that key's measure. */
  lemma SumPut<V(!new)>(m: map<string, V>, f: (string, V) -> real, k: string, v: V)
    ensures SumOver(m[k := v], f) == SumOver(m - {k}, f) + f(k, v)
    ensures k in m ==> SumOver(m[k := v], f) == SumOver(m, f) - f(k, m[k]) + f(k, v)
    ensures k !in m ==> SumOver(m[k := v], f) == SumOver(m, f) + f(k, v)
  {
    SumTakeOut(m[k := v], f, k);
    assert m[k := v] - {k} == m - {k};
    if k in m {
      SumTakeOut(m, f, k);
    } else {
      assert m - {k} == m;
    }
  }

  /** Moving an entry to a free key keeps the sum when the measure does not depend on the key. */
  lemma SumMove<V(!new)>(m: map<string, V>, f: (string, V) -> real, from: string, to: string, v: V)
    requires from in m && to !in m && f(from, m[from]) == f(to, v)
    ensures SumOver((m - {from})[to := v], f) == SumOver(m, f)
  {
    SumTakeOut(m, f, from);
    SumPut(m - {from}, f, to, v);
    assert to !in m - {from};
  }

  lemma SumIsNonNegative<V(!new)>(m: map<string, V>, f: (string, V) -> real)
    requires forall k :: k in m ==> f(k, m[k]) >= 0.0
    ensures SumOver(m, f) >= 0.0
    decreases |m|
  {
    if m != map[] {
      var k :| k in m && SumOver(m, f) == f(k, m[k]) + SumOver(m - {k}, f);
      SumIsNonNegative(m - {k}, f);
    }
  }

  /** Sum along a list that visits every key once. */
  ghost function SumAlong<V(!new)>(order: seq<string>, m: map<string, V>, f: (string, V) -> real): real
    requires forall k :: k in order ==> k in m
  {
    if order == [] then 0.0 else f(order[0], m[order[0]]) + SumAlong(order[1..], m, f)
  }

  ghost predicate Distinct(order: seq<string>) {
    forall i, j :: 0 <= i < j < |order| ==> order[i] != order[j]
  }

  /** order lists each key of m exactly once, in some order. */
  ghost predicate Enumerates<V(!new)>(order: seq<string>, m: map<string, V>) {
    Distinct(order) && forall k :: k in order <==> k in m
  }

  lemma {:induction false} SumAlongIsSumOver<V(!new)>(order: seq<string>, m: map<string, V>, f: (string, V) -> real)
    requires Enumerates(order, m)
    ensures SumAlong(order, m, f) == SumOver(m, f)
  {
    if order == [] {
      assert m == map[];
    } else {
      var k, rest := order[0], m - {order[0]};
      SumTakeOut(m, f, k);
      assert Enumerates(order[1..], rest) by {
        forall s ensures s in order[1..] <==> s in rest {
          assert s in order <==> s == k || s in order[1..];
        }
      }
      SumAlongIsSumOver(order[1..], rest, f);
      SumAlongAgree(order[1..], m, rest, f);
    }
  }

  lemma SumAlongAgree<V(!new)>(order: seq<string>, m: map<string, V>, n: map<string, V>, f: (string, V) -> real)
    requires forall k :: k in order ==> k in m && k in n && m[k] == n[k]
    ensures SumAlong(order, m, f) == SumAlong(order, n, f)
  {
  }

  lemma SubsetOfEqualSize(small: set<string>, large: set<string>)
    requires small <= large
    ensures |small| == |large| <==> small == large
  {
    if small != large {
      assert large == small + (large - small);
    }
  }

  lemma SameSize<V>(a: map<string, V>, b: map<string, V>)
    requires a.Keys == b.Keys
    ensures |a| == |b|
  {
    assert |a| == |a.Keys| && |b| == |b.Keys|;
  }
}
