/** Totals over finite maps. */
module Sums {

  ghost function Sum<K>(m: map<K, int>): int {
    if m == map[] then 0
    else
      var k :| k in m;
      m[k] + Sum(m - {k})
  }

  /** Any key may be taken out first. */
  lemma {:induction false} SumWithout<K>(m: map<K, int>, k: K)
    requires k in m
    ensures Sum(m) == m[k] + Sum(m - {k})
    decreases |m|
  {
    var j :| j in m && Sum(m) == m[j] + Sum(m - {j});
    if j != k {
      SumWithout(m - {j}, k);
      SumWithout(m - {k}, j);
      assert m - {j} - {k} == m - {k} - {j};
    }
  }

  lemma SumWith<K>(m: map<K, int>, k: K, v: int)
    requires k !in m
    ensures Sum(m[k := v]) == Sum(m) + v
  {
    SumWithout(m[k := v], k);
    assert m[k := v] - {k} == m;
  }

  lemma UnionWithout<K>(m: map<K, int>, n: map<K, int>, k: K)
    requires k !in m
    ensures (m + n) - {k} == m + (n - {k})
  {}

  /** The total of a union of disjoint maps. */
  lemma {:induction false} SumUnion<K>(m: map<K, int>, n: map<K, int>)
    requires m.Keys !! n.Keys
    ensures Sum(m + n) == Sum(m) + Sum(n)
    decreases |n|
  {
    if n == map[] {
      assert m + n == m;
    } else {
      var k :| k in n;
      var rest := n - {k};
      SumUnion(m, rest);
      SumWithout(n, k);
      SumWithout(m + n, k);
      UnionWithout(m, n, k);
    }
  }

  lemma SizeWithout<K>(m: map<K, int>, k: K)
    requires k in m
    ensures |m| == |m - {k}| + 1
  {}

  /** A total of numbers from 1 to high. */
  lemma {:induction false} SumAtLeast<K>(m: map<K, int>)
    requires forall k :: k in m ==> 1 <= m[k]
    ensures |m| <= Sum(m)
    decreases |m|
  {
    if m != map[] {
      var k :| k in m;
      SumWithout(m, k);
      SizeWithout(m, k);
      SumAtLeast(m - {k});
    }
  }

  lemma OneMoreTimes(high: nat, n: nat)
    requires n > 0
    ensures high * n == high * (n - 1) + high
  {}

  lemma {:induction false} SumAtMost<K>(m: map<K, int>, high: nat, n: nat)
    requires n == |m| && forall k :: k in m ==> m[k] <= high
    ensures Sum(m) <= high * n
    decreases n
  {
    if m != map[] {
      var k :| k in m;
      SumWithout(m, k);
      SizeWithout(m, k);
      SumAtMost(m - {k}, high, n - 1);
      OneMoreTimes(high, n);
    }
  }
}
