/** Sums of natural numbers over a finite set of keys. */
module Sums {
  ghost function Sum<K>(m: map<K, nat>, s: set<K>): nat
    requires s <= m.Keys
  {
    if s == {} then 0
    else
      var x :| x in s;
      m[x] + Sum(m, s - {x})
  }

  /** Any element may be taken out first. */
  lemma {:induction false} SumTake<K>(m: map<K, nat>, s: set<K>, x: K)
    requires s <= m.Keys && x in s
    ensures Sum(m, s) == m[x] + Sum(m, s - {x})
  {
    var y :| y in s && Sum(m, s) == m[y] + Sum(m, s - {y});
    if y != x {
      SumTake(m, s - {y}, x);
      SumTake(m, s - {x}, y);
      assert s - {y} - {x} == s - {x} - {y};
    }
  }

  lemma SumAdd<K>(m: map<K, nat>, s: set<K>, x: K)
    requires s <= m.Keys && x in m.Keys && x !in s
    ensures Sum(m, s + {x}) == Sum(m, s) + m[x]
  {
    SumTake(m, s + {x}, x);
    assert s + {x} - {x} == s;
  }

  lemma {:induction false} SumMono<K>(m: map<K, nat>, s: set<K>, t: set<K>)
    requires s <= t <= m.Keys
    ensures Sum(m, s) <= Sum(m, t)
  {
    if s != {} {
      var x :| x in s;
      SumTake(m, s, x);
      SumTake(m, t, x);
      SumMono(m, s - {x}, t - {x});
    }
  }

  /** Only the values at the keys that are summed matter. */
  lemma {:induction false} SumSame<K>(m: map<K, nat>, n: map<K, nat>, s: set<K>)
    requires s <= m.Keys && s <= n.Keys && forall x | x in s :: m[x] == n[x]
    ensures Sum(m, s) == Sum(n, s)
  {
    if s != {} {
      var x :| x in s;
      SumTake(m, s, x);
      SumTake(n, s, x);
      SumSame(m, n, s - {x});
    }
  }

  /** Renaming the keys injectively keeps the sum. */
  lemma {:induction false} SumRename<K, L>(m: map<K, nat>, n: map<L, nat>, s: set<K>, t: set<L>, f: map<K, L>)
    requires s <= m.Keys && t <= n.Keys && s <= f.Keys
    requires t == set x | x in s :: f[x]
    requires forall x | x in s :: f[x] in t && m[x] == n[f[x]]
    requires forall x, y | x in s && y in s && f[x] == f[y] :: x == y
    ensures Sum(m, s) == Sum(n, t)
  {
    if s != {} {
      var x :| x in s;
      SumTake(m, s, x);
      SumTake(n, t, f[x]);
      assert t - {f[x]} == set y | y in s - {x} :: f[y];
      SumRename(m, n, s - {x}, t - {f[x]}, f);
    }
  }
}
