/** Sums over finite maps, where a key that is missing counts as zero. */
module Sums {

  function At<K>(m: map<K, nat>, k: K): nat {
    if k in m then m[k] else 0
  }

  ghost function Sum<K>(m: map<K, nat>): nat
    decreases |m|
  {
    if m == map[] then 0
    else
      var k :| k in m;
      m[k] + Sum(m - {k})
  }

  /** The sum does not depend on which key is taken first. */
  lemma {:induction false} SumPick<K>(m: map<K, nat>, k: K)
    ensures Sum(m) == At(m, k) + Sum(m - {k})
    decreases |m|
  {
    if k !in m {
      assert m - {k} == m;
    } else {
      var j :| j in m && Sum(m) == m[j] + Sum(m - {j});
      if j != k {
        SumPick(m - {j}, k);
        SumPick(m - {k}, j);
        assert m - {j} - {k} == m - {k} - {j};
      }
    }
  }

  /** A map that is pointwise the sum of two maps has the sum of their sums. */
  lemma {:induction false} SumSplit<K(!new)>(whole: map<K, nat>, a: map<K, nat>, b: map<K, nat>)
    requires forall k :: At(whole, k) == At(a, k) + At(b, k)
    ensures Sum(whole) == Sum(a) + Sum(b)
    decreases |whole| + |a| + |b|
  {
    if whole == map[] && a == map[] && b == map[] {
    } else {
      var k := AnyKey(whole, a, b);
      SumPick(whole, k);
      SumPick(a, k);
      SumPick(b, k);
      assert At(whole, k) == At(a, k) + At(b, k);
      SplitWithout(whole, a, b, k);
      SumSplit(whole - {k}, a - {k}, b - {k});
    }
  }

  lemma SplitWithout<K(!new)>(whole: map<K, nat>, a: map<K, nat>, b: map<K, nat>, k: K)
    requires forall j :: At(whole, j) == At(a, j) + At(b, j)
    requires k in whole || k in a || k in b
    ensures forall j :: At(whole - {k}, j) == At(a - {k}, j) + At(b - {k}, j)
    ensures |whole - {k}| + |a - {k}| + |b - {k}| < |whole| + |a| + |b|
  {
  }

  lemma AnyKey<K>(a: map<K, nat>, b: map<K, nat>, c: map<K, nat>) returns (k: K)
    requires a != map[] || b != map[] || c != map[]
    ensures k in a || k in b || k in c
  {
    if a != map[] {
      k :| k in a;
    } else if b != map[] {
      k :| k in b;
    } else {
      k :| k in c;
    }
  }

  lemma SizeWithout<K>(m: map<K, nat>, k: K)
    ensures |m - {k}| == if k in m then |m| - 1 else |m|
  {
  }

  /** A pointwise bound is a bound on the sums. */
  lemma SumAtMost<K(!new)>(c: map<K, nat>, a: map<K, nat>, b: map<K, nat>)
    requires forall k :: At(c, k) <= At(a, k) + At(b, k)
    ensures Sum(c) <= Sum(a) + Sum(b)
  {
    hide Sum, At, Plus, Minus;
    var both := Plus(a, b);
    var slack := Minus(both, c);
    SumSplit(both, a, b);
    forall k ensures At(both, k) == At(c, k) + At(slack, k) {
      assert At(c, k) <= At(a, k) + At(b, k);
    }
    SumSplit(both, c, slack);
  }

  ghost function Plus<K(!new)>(a: map<K, nat>, b: map<K, nat>): (r: map<K, nat>)
    ensures forall k :: At(r, k) == At(a, k) + At(b, k)
  {
    map k | k in a.Keys + b.Keys :: At(a, k) + At(b, k)
  }

  /** What is left of `a` where it exceeds `b`. */
  ghost function Minus<K(!new)>(a: map<K, nat>, b: map<K, nat>): (r: map<K, nat>)
    ensures forall k :: At(r, k) == if At(b, k) <= At(a, k) then At(a, k) - At(b, k) else 0
  {
    map k | k in a :: if At(b, k) <= a[k] then a[k] - At(b, k) else 0
  }

  lemma SumMonotone<K(!new)>(a: map<K, nat>, b: map<K, nat>)
    requires forall k :: At(a, k) <= At(b, k)
    ensures Sum(a) <= Sum(b)
  {
    SumAtMost(a, b, map[]);
  }

  lemma SumSame<K(!new)>(a: map<K, nat>, b: map<K, nat>)
    requires forall k :: At(a, k) == At(b, k)
    ensures Sum(a) == Sum(b)
  {
    SumSplit(a, b, map[]);
  }

  lemma SumSingle<K>(k: K, n: nat)
    ensures Sum(map[k := n]) == n
  {
    SumPick(map[k := n], k);
    assert map[k := n] - {k} == map[];
  }
}
