/** Sums over finite maps, independent of the order in which entries are visited. */
module Sums {

  ghost function Pick<K>(s: set<K>): (k: K)
    requires s != {}
    ensures k in s
  {
    var k :| k in s; k
  }

  ghost function Sum<K>(m: map<K, int>): int
    decreases |m|
  {
    if m == map[] then 0
    else
      var k := Pick(m.Keys);
      assert (m - {k}).Keys == m.Keys - {k};
      m[k] + Sum(m - {k})
  }

  /** Any key may be taken out first. */
  lemma {:induction false} SumRemove<K>(m: map<K, int>, k: K)
    requires k in m
    ensures Sum(m) == m[k] + Sum(m - {k})
    decreases |m|
  {
    var j := Pick(m.Keys);
    if j != k {
      var withoutJ, withoutK := m - {j}, m - {k};
      assert withoutJ.Keys == m.Keys - {j} && withoutK.Keys == m.Keys - {k};
      SumRemove(withoutJ, k);
      SumRemove(withoutK, j);
      assert withoutJ - {k} == withoutK - {j};
    }
  }

  lemma SumInsert<K>(m: map<K, int>, k: K, v: int)
    requires k !in m
    ensures Sum(m[k := v]) == Sum(m) + v
  {
    SumRemove(m[k := v], k);
    assert m[k := v] - {k} == m;
  }

  lemma SumUpdate<K>(m: map<K, int>, k: K, v: int)
    requires k in m
    ensures Sum(m[k := v]) == Sum(m) - m[k] + v
  {
    SumRemove(m, k);
    SumRemove(m[k := v], k);
    assert m[k := v] - {k} == m - {k};
  }

  /** Summation is linear: a pointwise sum of two maps sums to the sum of their sums. */
  lemma {:induction false} SumAdd<K>(a: map<K, int>, b: map<K, int>, c: map<K, int>)
    requires a.Keys == b.Keys == c.Keys
    requires forall k <- c :: c[k] == a[k] + b[k]
    ensures Sum(c) == Sum(a) + Sum(b)
    decreases |c|
  {
    if c == map[] {
      assert a == map[] && b == map[];
    } else {
      var k := Pick(c.Keys);
      assert (c - {k}).Keys == c.Keys - {k};
      SumRemove(a, k);
      SumRemove(b, k);
      SumAdd(a - {k}, b - {k}, c - {k});
    }
  }

  /** Summation is monotone. */
  lemma {:induction false} SumLe<K>(a: map<K, int>, b: map<K, int>)
    requires a.Keys == b.Keys
    requires forall k <- a :: a[k] <= b[k]
    ensures Sum(a) <= Sum(b)
    decreases |a|
  {
    if a == map[] {
      assert b == map[];
    } else {
      var k := Pick(a.Keys);
      assert (a - {k}).Keys == a.Keys - {k};
      SumRemove(b, k);
      SumLe(a - {k}, b - {k});
    }
  }

  lemma {:induction false} SumZero<K>(m: map<K, int>)
    requires forall k <- m :: m[k] == 0
    ensures Sum(m) == 0
    decreases |m|
  {
    if m != map[] {
      var k := Pick(m.Keys);
      assert (m - {k}).Keys == m.Keys - {k};
      SumZero(m - {k});
    }
  }
}
