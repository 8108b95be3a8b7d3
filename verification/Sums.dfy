/** Sums over the values of finite maps: accounts, positions and pending orders are kept in maps. */
module Sums {

  ghost function MapSum(m: map<int, real>): real {
    if forall k :: k !in m then 0.0
    else
      var k :| k in m;
      m[k] + MapSum(m - {k})
  }

  /** The sum does not depend on the order in which the keys are taken. */
  lemma {:induction false} SumWithout(m: map<int, real>, k: int)
    requires k in m
    ensures MapSum(m) == m[k] + MapSum(m - {k})
  {
    var j :| j in m && MapSum(m) == m[j] + MapSum(m - {j});
    if j == k {
    } else {
      SumWithout(m - {j}, k);
      SumWithout(m - {k}, j);
      assert m - {j} - {k} == m - {k} - {j};
    }
  }

  function At(m: map<int, real>, k: int): real { if k in m then m[k] else 0.0 }

  lemma SumPut(m: map<int, real>, k: int, v: real)
    ensures MapSum(m[k := v]) == MapSum(m) - At(m, k) + v
  {
    SumWithout(m[k := v], k);
    assert m[k := v] - {k} == m - {k};
    if k in m {
      SumWithout(m, k);
    } else {
      assert m - {k} == m;
    }
  }

  lemma SumCut(m: map<int, real>, k: int)
    ensures MapSum(m - {k}) == MapSum(m) - At(m, k)
  {
    if k in m {
      SumWithout(m, k);
    } else {
      assert m - {k} == m;
    }
  }

  lemma {:induction false} SumNonNegative(m: map<int, real>)
    requires forall k | k in m :: m[k] >= 0.0
    ensures MapSum(m) >= 0.0
    ensures forall k | k in m :: m[k] <= MapSum(m)
  {
    if !exists k :: k in m {
    } else {
      forall k | k in m ensures 0.0 <= m[k] <= MapSum(m) {
        SumWithout(m, k);
        SumNonNegative(m - {k});
      }
      var k :| k in m;
      assert 0.0 <= m[k];
    }
  }

  lemma {:induction false} SumsAgree(m: map<int, real>, n: map<int, real>)
    requires (forall k :: k in m <==> k in n) && forall k | k in m :: m[k] == n[k]
    ensures MapSum(m) == MapSum(n)
  {
    if k :| k in m {
      SumWithout(m, k);
      SumWithout(n, k);
      SumsAgree(m - {k}, n - {k});
    }
  }

  lemma {:induction false} SumOfZeros(m: map<int, real>)
    requires forall k | k in m :: m[k] == 0.0
    ensures MapSum(m) == 0.0
  {
    if k :| k in m {
      SumWithout(m, k);
      SumOfZeros(m - {k});
    } else {
    }
  }
}
