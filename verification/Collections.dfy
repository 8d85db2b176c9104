/** Sizes of finite sets and sums over map keys. */
module Collections {

  function Range(lo: int, hi: int): (s: set<int>)
    ensures forall i :: i in s <==> lo <= i < hi
    decreases hi - lo
  {
    if lo >= hi then {} else Range(lo, hi - 1) + {hi - 1}
  }

  lemma {:induction false} RangeSize(lo: int, hi: int)
    requires lo <= hi
    ensures |Range(lo, hi)| == hi - lo
    decreases hi - lo
  {
    if lo < hi {
      RangeSize(lo, hi - 1);
    }
  }

  lemma {:induction false} SubsetSize<T>(a: set<T>, b: set<T>)
    requires a <= b
    ensures |a| <= |b|
    ensures |a| == |b| ==> a == b
    decreases a
  {
    if a == {} {
    } else {
      var x :| x in a;
      SubsetSize(a - {x}, b - {x});
      assert a == (a - {x}) + {x} && b == (b - {x}) + {x};
    }
  }

  /** An injection into a set bounds the size of its domain. */
  lemma {:induction false} InjectionSize<A, B>(a: set<A>, b: set<B>, f: map<A, B>)
    requires f.Keys == a
    requires forall x :: x in a ==> f[x] in b
    requires forall x, y :: x in a && y in a && f[x] == f[y] ==> x == y
    ensures |a| <= |b|
    decreases a
  {
    if a != {} {
      var x :| x in a;
      InjectionSize(a - {x}, b - {f[x]}, f - {x});
    }
  }

  /** The sum of a map's values. */
  ghost function Sum(m: map<nat, nat>): nat {
    if m == map[] then 0 else var t :| t in m; m[t] + Sum(m - {t})
  }

  /** The order in which the values are added does not matter. */
  lemma {:induction false} SumRemove(m: map<nat, nat>, t: nat)
    requires t in m
    ensures Sum(m) == m[t] + Sum(m - {t})
    decreases |m|
  {
    var u :| u in m && Sum(m) == m[u] + Sum(m - {u});
    if u != t {
      SumRemove(m - {u}, t);
      SumRemove(m - {t}, u);
      assert m - {u} - {t} == m - {t} - {u};
    }
  }

  lemma SumAdd(m: map<nat, nat>, t: nat, n: nat)
    requires t !in m
    ensures Sum(m[t := n]) == Sum(m) + n
  {
    SumRemove(m[t := n], t);
    assert m[t := n] - {t} == m;
  }

  /** One pair for every unit of every value. */
  ghost function Units(m: map<nat, nat>): set<(nat, nat)> { set t, i: nat | t in m && 0 <= i < m[t] :: (t, i) }

  ghost function Row(t: nat, n: nat): set<(nat, nat)> { set i: nat | 0 <= i < n :: (t, i) }

  lemma {:induction false} RowSize(t: nat, n: nat)
    ensures |Row(t, n)| == n
  {
    if n == 0 {
      assert Row(t, n) == {};
    } else {
      RowSize(t, n - 1);
      assert Row(t, n) == Row(t, n - 1) + {(t, n - 1)};
    }
  }

  lemma UnitsSplit(m: map<nat, nat>, t: nat)
    requires t in m
    ensures Units(m) == Units(m - {t}) + Row(t, m[t])
    ensures Units(m - {t}) !! Row(t, m[t])
  {
    forall u | u in Units(m) ensures u in Units(m - {t}) + Row(t, m[t]) {
      if u.0 == t { assert u in Row(t, m[t]); } else { assert u.0 in m - {t}; }
    }
    forall u | u in Units(m - {t}) + Row(t, m[t]) ensures u in Units(m) { assert u.0 in m; }
  }

  lemma {:induction false} UnitsSize(m: map<nat, nat>)
    ensures |Units(m)| == Sum(m)
    decreases |m|
  {
    if m == map[] {
      assert Units(m) == {};
    } else {
      var t :| t in m;
      SumRemove(m, t);
      UnitsSize(m - {t});
      RowSize(t, m[t]);
      UnitsSplit(m, t);
    }
  }

  lemma {:induction false} SumOfOnes(m: map<nat, nat>)
    requires forall t :: t in m ==> m[t] == 1
    ensures Sum(m) == |m|
    decreases |m|
  {
    if m != map[] {
      var t :| t in m;
      SumRemove(m, t);
      SumOfOnes(m - {t});
      assert m.Keys == (m - {t}).Keys + {t};
    }
  }
}
