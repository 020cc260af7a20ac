/** Dictionaries of counts and sums over dictionaries. */
module Counts {
  function Get<K>(m: map<K, nat>, k: K): nat {
    if k in m then m[k] else 0
  }

  function Bumped<K>(m: map<K, nat>, k: K): map<K, nat> {
    m[k := Get(m, k) + 1]
  }

  ghost function AnyKey<K, V>(m: map<K, V>): (k: K)
    requires m != map[]
    ensures k in m
  {
    var k :| k in m;
    k
  }

  ghost function Total<K>(m: map<K, int>): int
    decreases |m|
  {
    if m == map[] then 0 else
      var k := AnyKey(m);
      assert |m - {k}| < |m| by { Smaller(m, k); }
      m[k] + Total(m - {k})
  }

  lemma Smaller<K, V>(m: map<K, V>, k: K)
    requires k in m
    ensures |m - {k}| == |m| - 1
  {
    assert (m - {k}).Keys == m.Keys - {k};
    assert |(m - {k}).Keys| == |m.Keys| - 1;
    assert |m| == |m.Keys| && |m - {k}| == |(m - {k}).Keys|;
  }

  lemma {:induction false} TotalWithout<K>(m: map<K, int>, k: K)
    requires k in m
    ensures Total(m) == m[k] + Total(m - {k})
    decreases |m|
  {
    var p := AnyKey(m);
    if p != k {
      Smaller(m, p);
      Smaller(m, k);
      TotalWithout(m - {p}, k);
      TotalWithout(m - {k}, p);
      assert (m - {p}) - {k} == (m - {k}) - {p};
    }
  }

  lemma TotalPut<K>(m: map<K, int>, k: K, v: int)
    ensures Total(m[k := v]) == Total(m) + v - (if k in m then m[k] else 0)
  {
    TotalWithout(m[k := v], k);
    assert m[k := v] - {k} == m - {k};
    if k in m {
      TotalWithout(m, k);
    } else {
      assert m - {k} == m;
    }
  }

  lemma {:induction false} TotalParts<K>(m: map<K, int>, part: set<K>)
    requires part <= m.Keys
    ensures Total(m) == Total(map k | k in part :: m[k]) + Total(m - part)
    decreases |part|
  {
    if part == {} {
      assert m - part == m;
      assert (map k | k in part :: m[k]) == map[];
    } else {
      var k :| k in part;
      var rest := part - {k};
      TotalWithout(m, k);
      TotalParts(m - {k}, rest);
      var chosen := map j | j in part :: m[j];
      TotalWithout(chosen, k);
      assert chosen - {k} == map j | j in rest :: (m - {k})[j];
      assert (m - {k}) - rest == m - part;
    }
  }

  lemma Distribute(d: int, n: nat)
    ensures d * (n + 1) == d * n + d
  {
  }

  lemma {:induction false} TotalShifted<K>(a: map<K, int>, b: map<K, int>, d: int)
    requires a.Keys == b.Keys && forall k :: k in a ==> b[k] == a[k] + d
    ensures Total(b) == Total(a) + d * |a|
    decreases |a|
  {
    if a == map[] {
      assert b == map[];
    } else {
      var k := AnyKey(a);
      Smaller(a, k);
      TotalWithout(b, k);
      TotalShifted(a - {k}, b - {k}, d);
      Distribute(d, |a - {k}|);
    }
  }

  lemma BumpedTotal<K>(m: map<K, nat>, k: K)
    ensures Total(Bumped(m, k)) == Total(m) + 1
  {
    TotalPut(m, k, Get(m, k) + 1);
  }

  lemma {:induction false} TotalZeros<K>(m: map<K, int>)
    requires forall k :: k in m ==> m[k] == 0
    ensures Total(m) == 0
    decreases |m|
  {
    if m != map[] {
      var k := AnyKey(m);
      Smaller(m, k);
      TotalZeros(m - {k});
    }
  }

  lemma TotalGrown<K>(a: map<K, int>, b: map<K, int>)
    requires a.Keys <= b.Keys && (forall k :: k in b ==> b[k] == if k in a then a[k] else 0)
    ensures Total(b) == Total(a)
  {
    TotalParts(b, a.Keys);
    assert (map k | k in a.Keys :: b[k]) == a;
    TotalZeros(b - a.Keys);
  }
}
