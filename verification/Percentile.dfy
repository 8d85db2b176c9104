/** Timing percentiles over exact rationals. */
module Percentile {
  import opened Collections

  predicate Ascending(s: seq<real>) { forall i, j :: 0 <= i < j < |s| ==> s[i] <= s[j] }

  function Insert(x: real, s: seq<real>): seq<real> {
    if s == [] || x <= s[0] then [x] + s else [s[0]] + Insert(x, s[1..])
  }

  function Sorted(s: seq<real>): seq<real> { if s == [] then [] else Insert(s[0], Sorted(s[1..])) }

  lemma {:induction false} InsertElements(x: real, s: seq<real>)
    ensures multiset(Insert(x, s)) == multiset(s) + multiset{x}
    ensures forall y :: y in Insert(x, s) ==> y == x || y in s
  {
    if s != [] && x > s[0] {
      InsertElements(x, s[1..]);
      assert s == [s[0]] + s[1..];
    }
  }

  lemma {:induction false} InsertAscends(x: real, s: seq<real>)
    requires Ascending(s)
    ensures Ascending(Insert(x, s))
  {
    if s != [] && x > s[0] {
      InsertAscends(x, s[1..]);
      InsertElements(x, s[1..]);
      var rest := Insert(x, s[1..]);
      forall j | 0 <= j < |rest| ensures s[0] <= rest[j] {
        assert rest[j] in rest;
        if rest[j] != x {
          var k :| 0 <= k < |s[1..]| && s[1..][k] == rest[j];
          assert rest[j] == s[k + 1];
        }
      }
    }
  }

  lemma {:induction false} SortedAscends(s: seq<real>)
    ensures Ascending(Sorted(s)) && multiset(Sorted(s)) == multiset(s) && |Sorted(s)| == |s|
  {
    if s != [] {
      SortedAscends(s[1..]);
      InsertAscends(s[0], Sorted(s[1..]));
      InsertElements(s[0], Sorted(s[1..]));
      assert s == [s[0]] + s[1..];
      assert |multiset(Sorted(s))| == |multiset(s)|;
    }
  }

  /** The index `runtimePercentile` computes before it is clamped. */
  function RawIndex(n: nat, p: real): int { (p * n as real + 0.999999999).Floor - 1 }

  function Clamped(index: int, n: nat): int
    requires n > 0
  {
    if index < 0 then 0 else if index >= n then n - 1 else index
  }

  function PercentileOf(sorted: seq<real>, p: real): real
    requires sorted != []
  {
    if |sorted| == 1 then sorted[0]
    else
      var index := Clamped(RawIndex(|sorted|, p), |sorted|);
      assert 0 <= index < |sorted|;
      sorted[index]
  }

  datatype Percentiles = Percentiles(p50: real, p95: real, p99: real)

  function RuntimePercentiles(values: seq<real>): Percentiles {
    if values == [] then Percentiles(0.0, 0.0, 0.0)
    else
      assert |Sorted(values)| == |values| by { SortedAscends(values); }
      Percentiles(PercentileOf(Sorted(values), 0.50), PercentileOf(Sorted(values), 0.95),
        PercentileOf(Sorted(values), 0.99))
  }

  predicate Reported(hundredths: nat) { hundredths == 50 || hundredths == 95 || hundredths == 99 }

  function Fraction(hundredths: nat): real { hundredths as real / 100.0 }

  /** The nearest rank: the least k with k / n >= p. */
  ghost predicate NearestRank(n: nat, p: real, k: int) { k as real >= p * n as real && (k - 1) as real < p * n as real }

  /** Adding 0.999999999 before truncation rounds up to the nearest rank, for every number of hundredths. */
  lemma OffsetRoundsUp(n: nat, hundredths: nat)
    ensures NearestRank(n, Fraction(hundredths), RawIndex(n, Fraction(hundredths)) + 1)
    ensures RawIndex(n, Fraction(hundredths)) + 1 == (hundredths * n + 99) / 100
  {
    var m := hundredths * n;
    var q, r := m / 100, m % 100;
    var x := Fraction(hundredths) * n as real;
    assert m as real == hundredths as real * n as real;
    assert x == m as real / 100.0;
    assert x == q as real + r as real / 100.0;
    var k := if r == 0 then q else q + 1;
    assert k as real <= x + 0.999999999 < k as real + 1.0;
    assert (x + 0.999999999).Floor == k;
  }

  lemma RankInSample(n: nat, hundredths: nat)
    requires n > 0 && Reported(hundredths)
    ensures 0 <= RawIndex(n, Fraction(hundredths)) < n
  {
    OffsetRoundsUp(n, hundredths);
  }

  /** How many values are at most x, and how many are less. */
  ghost function AtMost(s: seq<real>, x: real): nat {
    if s == [] then 0 else (if s[0] <= x then 1 else 0) + AtMost(s[1..], x)
  }

  ghost function Below(s: seq<real>, x: real): nat {
    if s == [] then 0 else (if s[0] < x then 1 else 0) + Below(s[1..], x)
  }

  lemma {:induction false} InsertCounts(y: real, s: seq<real>, x: real)
    ensures AtMost(Insert(y, s), x) == AtMost(s, x) + if y <= x then 1 else 0
    ensures Below(Insert(y, s), x) == Below(s, x) + if y < x then 1 else 0
  {
    if s == [] || y <= s[0] {
      assert ([y] + s)[1..] == s;
    } else {
      InsertCounts(y, s[1..], x);
      assert ([s[0]] + Insert(y, s[1..]))[1..] == Insert(y, s[1..]);
    }
  }

  lemma {:induction false} SortedCounts(s: seq<real>, x: real)
    ensures AtMost(Sorted(s), x) == AtMost(s, x) && Below(Sorted(s), x) == Below(s, x)
  {
    if s != [] {
      SortedCounts(s[1..], x);
      InsertCounts(s[0], Sorted(s[1..]), x);
    }
  }

  lemma {:induction false} NoneBelowFirst(s: seq<real>, x: real)
    requires forall i :: 0 <= i < |s| ==> x <= s[i]
    ensures Below(s, x) == 0
  {
    if s != [] { NoneBelowFirst(s[1..], x); }
  }

  lemma {:induction false} CountsAtIndex(s: seq<real>, index: nat)
    requires Ascending(s) && index < |s|
    ensures AtMost(s, s[index]) >= index + 1 && Below(s, s[index]) <= index
  {
    if index == 0 {
      NoneBelowFirst(s, s[0]);
    } else {
      CountsAtIndex(s[1..], index - 1);
    }
  }

  /** A value of the sample with at least the given fraction of the sample at most it, and less than that below it. */
  ghost predicate IsPercentile(values: seq<real>, v: real, hundredths: nat) {
    v in values && 100 * AtMost(values, v) >= hundredths * |values| && 100 * Below(values, v) < hundredths * |values|
  }

  /** The three reported values are the nearest-rank percentiles of the sample, in whatever order it comes; of an
      empty sample they are 0. */
  lemma PercentileMeaning(values: seq<real>)
    ensures values == [] ==> RuntimePercentiles(values) == Percentiles(0.0, 0.0, 0.0)
    ensures values != [] ==>
      && IsPercentile(values, RuntimePercentiles(values).p50, 50)
      && IsPercentile(values, RuntimePercentiles(values).p95, 95)
      && IsPercentile(values, RuntimePercentiles(values).p99, 99)
  {
    if values != [] {
      SortedAscends(values);
      Fractions();
      PercentileAt(values, 50);
      PercentileAt(values, 95);
      PercentileAt(values, 99);
    }
  }

  lemma PercentileAt(values: seq<real>, hundredths: nat)
    requires values != [] && Reported(hundredths) && |Sorted(values)| == |values|
    ensures IsPercentile(values, PercentileOf(Sorted(values), Fraction(hundredths)), hundredths)
  {
    SortedAscends(values);
    var n, sorted := |values|, Sorted(values);
    OffsetRoundsUp(n, hundredths);
    RankInSample(n, hundredths);
    var index := RawIndex(n, Fraction(hundredths));
    var v := PercentileOf(sorted, Fraction(hundredths));
    assert v == sorted[index];
    assert v in multiset(sorted);
    CountsAtIndex(sorted, index);
    SortedCounts(values, v);
  }

  lemma PercentilesOrdered(values: seq<real>)
    ensures RuntimePercentiles(values).p50 <= RuntimePercentiles(values).p95 <= RuntimePercentiles(values).p99
  {
    if values != [] {
      SortedAscends(values);
      HigherIsNoLess(Sorted(values), 50, 95);
      HigherIsNoLess(Sorted(values), 95, 99);
      Fractions();
    }
  }

  lemma Fractions()
    ensures Fraction(50) == 0.50 && Fraction(95) == 0.95 && Fraction(99) == 0.99
  {
  }

  lemma HigherIsNoLess(sorted: seq<real>, low: nat, high: nat)
    requires sorted != [] && Ascending(sorted) && Reported(low) && Reported(high) && low <= high
    ensures PercentileOf(sorted, Fraction(low)) <= PercentileOf(sorted, Fraction(high))
  {
    var n := |sorted|;
    var i, j := RawIndex(n, Fraction(low)), RawIndex(n, Fraction(high));
    RankInSample(n, low);
    RankInSample(n, high);
    RankMonotone(n, low, high);
    assert PercentileOf(sorted, Fraction(low)) == sorted[i] && PercentileOf(sorted, Fraction(high)) == sorted[j];
  }

  lemma RankMonotone(n: nat, low: nat, high: nat)
    requires low <= high
    ensures RawIndex(n, Fraction(low)) <= RawIndex(n, Fraction(high))
  {
    OffsetRoundsUp(n, low);
    OffsetRoundsUp(n, high);
    assert low * n <= high * n;
  }
}
