/** Sums over finite maps of naturals. */
module Sums {
  import opened Tasks

  ghost function Sum(m: map<Id, nat>): nat {
    if m == map[] then 0 else
    var x :| x in m;
    m[x] + Sum(m - {x})
  }

  lemma {:induction false} SumRemove(m: map<Id, nat>, x: Id)
    requires x in m
    ensures Sum(m) == m[x] + Sum(m - {x})
    decreases |m|
  {
    var y :| y in m && Sum(m) == m[y] + Sum(m - {y});
    if x != y {
      SumRemove(m - {y}, x);
      SumRemove(m - {x}, y);
      assert m - {y} - {x} == m - {x} - {y};
    }
  }

  /** Raising the entries in d by one each and leaving the others raises the sum by |d|. */
  lemma {:induction false} SumRaise(m: map<Id, nat>, n: map<Id, nat>, d: set<Id>)
    requires m.Keys == n.Keys && d <= m.Keys
    requires forall x :: x in m ==> n[x] == m[x] + if x in d then 1 else 0
    ensures Sum(n) == Sum(m) + |d|
    decreases |m|
  {
    if m == map[] {
      assert n == map[] && d == {};
    } else {
      var x :| x in m;
      SumRemove(m, x);
      SumRemove(n, x);
      SumRaise(m - {x}, n - {x}, d - {x});
      if x in d { assert |d - {x}| == |d| - 1; } else { assert d - {x} == d; }
    }
  }

  lemma {:induction false} SumMonotone(m: map<Id, nat>, n: map<Id, nat>)
    requires m.Keys == n.Keys && forall x :: x in m ==> m[x] <= n[x]
    ensures Sum(m) <= Sum(n)
    decreases |m|
  {
    if m == map[] {
      assert n == map[];
    } else {
      var x :| x in m;
      SumRemove(m, x);
      SumRemove(n, x);
      SumMonotone(m - {x}, n - {x});
    }
  }

  /** If the entries in d fall by at least one each and none rises, the sum falls by at least |d|. */
  lemma SumFall(m: map<Id, nat>, n: map<Id, nat>, d: set<Id>)
    requires m.Keys == n.Keys && d <= m.Keys
    requires forall x :: x in m ==> m[x] + (if x in d then 1 else 0) <= n[x]
    ensures Sum(m) + |d| <= Sum(n)
  {
    var r := map x | x in m :: m[x] + if x in d then 1 else 0;
    SumRaise(m, r, d);
    SumMonotone(r, n);
  }

  lemma SumPut(m: map<Id, nat>, x: Id, v: nat)
    ensures Sum(m[x := v]) + (if x in m then m[x] else 0) == Sum(m) + v
  {
    SumRemove(m[x := v], x);
    assert m[x := v] - {x} == m - {x};
    if x in m { SumRemove(m, x); } else { assert m - {x} == m; }
  }

  function Elements(ids: seq<Id>): set<Id> { set x | x in ids }

  lemma {:induction false} DistinctSize(ids: seq<Id>)
    requires Distinct(ids)
    ensures |Elements(ids)| == |ids|
    decreases |ids|
  {
    if ids != [] {
      var n := |ids| - 1;
      DistinctSize(ids[..n]);
      assert ids[n] !in Elements(ids[..n]);
      assert ids == ids[..n] + [ids[n]];
      assert Elements(ids) == Elements(ids[..n]) + {ids[n]};
    }
  }
}
