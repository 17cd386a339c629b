/** Totals over finite maps: what "the sum of the sizes of all live objects" and
    "the number of bytes still outstanding" mean in this project. */
module Sums {

  /** The sum of all values of a finite map. */
  ghost function Sum<K(!new)>(m: map<K, nat>): nat
    decreases |m|
  {
    if m == map[] then 0
    else var k :| k in m; m[k] + Sum(m - {k})
  }

  /** Any key may be taken out first. */
  lemma {:induction false} SumTake<K(!new)>(m: map<K, nat>, k: K)
    requires k in m
    ensures Sum(m) == m[k] + Sum(m - {k})
    decreases |m|
  {
    var c :| c in m && Sum(m) == m[c] + Sum(m - {c});
    if c != k {
      SumTake(m - {c}, k);
      SumTake(m - {k}, c);
      assert m - {c} - {k} == m - {k} - {c};
    }
  }

  lemma SumPut<K(!new)>(m: map<K, nat>, k: K, v: nat)
    ensures Sum(m[k := v]) == Sum(m - {k}) + v
  {
    SumTake(m[k := v], k);
    assert m[k := v] - {k} == m - {k};
  }

  /** Changing one value changes the total by the difference. */
  lemma SumUpdate<K(!new)>(m: map<K, nat>, k: K, v: nat)
    requires k in m
    ensures Sum(m[k := v]) == Sum(m) - m[k] + v
  {
    SumPut(m, k, v);
    SumTake(m, k);
  }

  /** Adding a fresh key adds its value. */
  lemma SumInsert<K(!new)>(m: map<K, nat>, k: K, v: nat)
    requires k !in m
    ensures Sum(m[k := v]) == Sum(m) + v
  {
    SumPut(m, k, v);
    assert m - {k} == m;
  }

  /** The values of m, measured by f. */
  ghost function Over<V>(m: map<nat, V>, f: V -> nat): map<nat, nat> { map k | k in m :: f(m[k]) }

  lemma OverPut<V>(m: map<nat, V>, k: nat, x: V, f: V -> nat)
    ensures Sum(Over(m[k := x], f)) == Sum(Over(m, f)) + f(x) - if k in m then f(m[k]) else 0
  {
    if k in m { SumUpdate(Over(m, f), k, f(x)); } else { SumInsert(Over(m, f), k, f(x)); }
    assert Over(m[k := x], f) == Over(m, f)[k := f(x)];
  }

  lemma OverDrop<V>(m: map<nat, V>, k: nat, f: V -> nat)
    requires k in m
    ensures Sum(Over(m - {k}, f)) == Sum(Over(m, f)) - f(m[k])
  {
    SumTake(Over(m, f), k);
    assert Over(m - {k}, f) == Over(m, f) - {k};
  }
}
