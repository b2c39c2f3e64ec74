/** Sums over a table's entries, which do not depend on the order the table is visited in. */
module Totals {
  import opened Prelude

  ghost function Any<T>(m: map<nat, T>): nat
    requires m != map[]
    ensures Any(m) in m
  {
    assert m.Keys != {} by { assert m == map k | k in m.Keys :: m[k]; }
    var k :| k in m;
    k
  }

  ghost function Total(m: map<nat, nat>): nat
    decreases |m|
  {
    if m == map[] then 0
    else
      m[Any(m)] + Total(m - {Any(m)})
  }

  lemma {:induction false} TotalWithout(m: map<nat, nat>, k: nat)
    requires k in m
    ensures Total(m) == m[k] + Total(m - {k})
    decreases |m|
  {
    var l := Any(m);
    if k != l {
      TotalWithout(m - {l}, k);
      TotalWithout(m - {k}, l);
      assert m - {l} - {k} == m - {k} - {l};
    }
  }

  /** Changing one entry changes the total by exactly that entry's change. */
  lemma TotalAfterUpdate(m: map<nat, nat>, k: nat, v: nat)
    ensures Total(m[k := v]) == Total(m) - Get(m, k, 0) + v
  {
    TotalWithout(m[k := v], k);
    if k in m {
      TotalWithout(m, k);
      assert m[k := v] - {k} == m - {k};
    } else {
      assert m[k := v] - {k} == m;
    }
  }

  /** Everything the entries hold, put together. */
  ghost function Pool<T>(m: map<nat, multiset<T>>): multiset<T>
    decreases |m|
  {
    if m == map[] then multiset{}
    else
      m[Any(m)] + Pool(m - {Any(m)})
  }

  lemma {:induction false} PoolWithout<T>(m: map<nat, multiset<T>>, k: nat)
    requires k in m
    ensures Pool(m) == m[k] + Pool(m - {k})
    decreases |m|
  {
    var l := Any(m);
    if k != l {
      PoolWithout(m - {l}, k);
      PoolWithout(m - {k}, l);
      assert m - {l} - {k} == m - {k} - {l};
    }
  }

  /** Putting a new content in one entry exchanges it for the old one in the pool. */
  lemma PoolAfterUpdate<T>(m: map<nat, multiset<T>>, k: nat, v: multiset<T>)
    ensures Pool(m[k := v]) + Get(m, k, multiset{}) == Pool(m) + v
  {
    PoolWithout(m[k := v], k);
    if k in m {
      PoolWithout(m, k);
      assert m[k := v] - {k} == m - {k};
    } else {
      assert m[k := v] - {k} == m;
    }
  }
}
