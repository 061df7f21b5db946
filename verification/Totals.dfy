/** Sums of a weight over the values of a finite map. */
module Totals {

  ghost function Total<K(!new), V(!new)>(m: map<K, V>, w: V -> nat): nat
    decreases |m|
  {
    if m == map[] then 0 else
    var k :| k in m;
    w(m[k]) + Total(m - {k}, w)
  }

  /** Any key may be taken out first. */
  lemma {:induction false} TotalRemove<K(!new), V(!new)>(m: map<K, V>, k: K, w: V -> nat)
    requires k in m
    ensures Total(m, w) == w(m[k]) + Total(m - {k}, w)
    decreases |m|
  {
    var j :| j in m && Total(m, w) == w(m[j]) + Total(m - {j}, w);
    if j != k {
      TotalRemove(m - {j}, k, w);
      TotalRemove(m - {k}, j, w);
      assert (m - {j}) - {k} == (m - {k}) - {j};
    }
  }

  lemma TotalUpdate<K(!new), V(!new)>(m: map<K, V>, k: K, v: V, w: V -> nat)
    ensures Total(m[k := v], w) == Total(m - {k}, w) + w(v)
    ensures k in m ==> Total(m, w) == Total(m - {k}, w) + w(m[k])
    ensures k !in m ==> Total(m, w) == Total(m - {k}, w)
  {
    TotalRemove(m[k := v], k, w);
    assert m[k := v] - {k} == m - {k};
    if k in m {
      TotalRemove(m, k, w);
    } else {
      assert m - {k} == m;
    }
  }

  /** Sum of a weight over a multiset, an element counted as often as it occurs. */
  ghost function Weight<T(!new)>(m: multiset<T>, w: T -> nat): nat
    decreases |m|
  {
    if |m| == 0 then 0 else
    var x :| x in m;
    w(x) + Weight(m - multiset{x}, w)
  }

  /** Any element may be taken out first. */
  lemma {:induction false} WeightTake<T(!new)>(m: multiset<T>, x: T, w: T -> nat)
    requires x in m
    ensures Weight(m, w) == w(x) + Weight(m - multiset{x}, w)
    decreases |m|
  {
    var y :| y in m && Weight(m, w) == w(y) + Weight(m - multiset{y}, w);
    if x != y {
      var mx, my := m - multiset{x}, m - multiset{y};
      TakeBoth(m, x, y, mx, my);
      WeightTake(my, x, w);
      WeightTake(mx, y, w);
    }
  }

  lemma TakeBoth<T(!new)>(m: multiset<T>, x: T, y: T, mx: multiset<T>, my: multiset<T>)
    requires x != y && x in m && y in m && mx == m - multiset{x} && my == m - multiset{y}
    ensures x in my && y in mx && mx - multiset{y} == my - multiset{x} && |mx| < |m| && |my| < |m|
  {
    assert mx[y] == m[y] && my[x] == m[x];
    forall z ensures (mx - multiset{y})[z] == (my - multiset{x})[z] {
      assert mx[z] == if z == x then m[z] - 1 else m[z];
      assert my[z] == if z == y then m[z] - 1 else m[z];
    }
  }
}
