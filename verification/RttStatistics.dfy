/** The statistics over the round-trip times of the C++ metrics aggregator, over the real numbers. */
module RttStatistics {
  import opened Products

  function Sum(s: seq<int>): int {
    if s == [] then 0 else Sum(s[..|s| - 1]) + s[|s| - 1]
  }

  /** The sum of the squared distances to m. */
  function Deviations(s: seq<int>, m: real): real {
    if s == [] then 0.0
    else
      var d := s[|s| - 1] as real - m;
      Deviations(s[..|s| - 1], m) + Times(d, d)
  }

  function Mean(s: seq<int>): real
    requires s != []
  {
    Sum(s) as real / |s| as real
  }

  predicate Within(s: seq<int>, lo: int, hi: int) {
    forall i :: 0 <= i < |s| ==> lo <= s[i] <= hi
  }

  predicate AllEqual(s: seq<int>) {
    forall i :: 0 <= i < |s| ==> s[i] == s[0]
  }

  lemma NextSum(s: seq<int>, i: nat)
    requires i < |s|
    ensures Sum(s[..i + 1]) == Sum(s[..i]) + s[i]
    ensures forall m: real ::
      Deviations(s[..i + 1], m) == Deviations(s[..i], m) + Times(s[i] as real - m, s[i] as real - m)
  {
    assert s[..i + 1][..i] == s[..i];
  }

  // ---- the mean ----

  lemma {:induction false} SumWithin(s: seq<int>, lo: int, hi: int)
    requires Within(s, lo, hi)
    ensures |s| * lo <= Sum(s) <= |s| * hi
  {
    if s != [] {
      SumWithin(s[..|s| - 1], lo, hi);
      assert |s| * lo == (|s| - 1) * lo + lo && |s| * hi == (|s| - 1) * hi + hi;
    }
  }

  lemma Quotient(n: nat, lo: int, sum: int, hi: int)
    requires n > 0 && n * lo <= sum <= n * hi
    ensures lo as real <= sum as real / n as real <= hi as real
  {
    var q := sum as real / n as real;
    assert q * n as real == sum as real;
    if q < lo as real {
      TimesIsPositive(lo as real - q, n as real);
    }
    if q > hi as real {
      TimesIsPositive(q - hi as real, n as real);
    }
  }

  lemma MeanWithin(s: seq<int>, lo: int, hi: int)
    requires s != [] && Within(s, lo, hi)
    ensures lo as real <= Mean(s) <= hi as real
  {
    SumWithin(s, lo, hi);
    Quotient(|s|, lo, Sum(s), hi);
  }

  lemma MeanTimesCount(s: seq<int>)
    requires s != []
    ensures Times(|s| as real, Mean(s)) == Sum(s) as real
  {
  }

  // ---- the deviations ----

  /** Around any m the deviations are a quadratic in m. */
  lemma {:induction false} DeviationsAround(s: seq<int>, m: real)
    ensures Deviations(s, m)
      == Deviations(s, 0.0) - 2.0 * Times(m, Sum(s) as real) + Times(|s| as real, Times(m, m))
  {
    if s != [] {
      var t, x := s[..|s| - 1], s[|s| - 1] as real;
      DeviationsAround(t, m);
      OneAround(x, m, Sum(t) as real, |t| as real);
    }
  }

  lemma OneAround(x: real, m: real, sum: real, n: real)
    ensures Times(x - m, x - m) == Times(x - 0.0, x - 0.0) - 2.0 * Times(m, x) + Times(m, m)
    ensures Times(m, sum + x) == Times(m, sum) + Times(m, x)
    ensures Times(n + 1.0, Times(m, m)) == Times(n, Times(m, m)) + Times(m, m)
  {
  }

  /** The mean is the point with the least deviations, and every other exceeds it by n times a square. */
  lemma MeanIsBest(s: seq<int>, m: real)
    requires s != []
    ensures Deviations(s, m) == Deviations(s, Mean(s)) + Times(|s| as real, Times(m - Mean(s), m - Mean(s)))
  {
    DeviationsAround(s, m);
    DeviationsAround(s, Mean(s));
    MeanTimesCount(s);
    Completed(|s| as real, Sum(s) as real, Mean(s), m);
  }

  lemma Completed(n: real, sum: real, mean: real, m: real)
    requires Times(n, mean) == sum
    ensures -2.0 * Times(m, sum) + Times(n, Times(m, m))
      == -2.0 * Times(mean, sum) + Times(n, Times(mean, mean)) + Times(n, Times(m - mean, m - mean))
  {
  }

  /** No deviation is negative, and they vanish only around a value that all elements have. */
  lemma {:induction false} DeviationsSign(s: seq<int>, m: real)
    ensures Deviations(s, m) >= 0.0
    ensures Deviations(s, m) == 0.0 <==> forall i :: 0 <= i < |s| ==> s[i] as real == m
  {
    if s != [] {
      var t, d := s[..|s| - 1], s[|s| - 1] as real - m;
      DeviationsSign(t, m);
      SquareIsPositive(d);
      assert forall i :: 0 <= i < |t| ==> t[i] == s[i];
      if d == 0.0 {
        assert Times(d, d) == 0.0;
      }
    }
  }

  /** The spread is zero exactly when all round trips took the same time. */
  lemma NoSpreadExactlyWhen(s: seq<int>)
    requires s != []
    ensures Deviations(s, Mean(s)) == 0.0 <==> AllEqual(s)
  {
    DeviationsSign(s, Mean(s));
    if AllEqual(s) {
      MeanWithin(s, s[0], s[0]);
    }
  }

  lemma {:induction false} DeviationsBelow(s: seq<int>, lo: int, hi: int, m: real)
    requires Within(s, lo, hi)
    ensures Deviations(s, m) <= Chord(lo as real, hi as real, m, Sum(s) as real, |s| as real)
  {
    if s != [] {
      var t, x := s[..|s| - 1], s[|s| - 1];
      DeviationsBelow(t, lo, hi, m);
      OneBelow(lo as real, hi as real, m, x as real);
      ChordGrows(lo as real, hi as real, m, Sum(t) as real, |t| as real, x as real);
    } else {
      assert Chord(lo as real, hi as real, m, 0.0, 0.0) == 0.0;
    }
  }

  /** n times m^2 - lo hi plus the sum times lo + hi - 2 m: the deviations if all elements were extreme. */
  function Chord(lo: real, hi: real, m: real, sum: real, n: real): real {
    Times(hi + lo - 2.0 * m, sum) + Times(n, m * m - hi * lo)
  }

  lemma ChordGrows(lo: real, hi: real, m: real, sum: real, n: real, x: real)
    ensures Chord(lo, hi, m, sum + x, n + 1.0) == Chord(lo, hi, m, sum, n) + Chord(lo, hi, m, x, 1.0)
  {
  }

  lemma OneBelow(lo: real, hi: real, m: real, x: real)
    requires lo <= x <= hi
    ensures Times(x - m, x - m) <= Chord(lo, hi, m, x, 1.0)
  {
    TimesMonotone(0.0, x - lo, hi - x);
    assert Chord(lo, hi, m, x, 1.0) == Times(x - m, x - m) + Times(x - lo, hi - x);
  }

  lemma ChordAtMean(lo: real, hi: real, mean: real, sum: real, n: real)
    requires Times(n, mean) == sum
    ensures Chord(lo, hi, mean, sum, n) == Times(n, Times(hi - mean, mean - lo))
  {
  }

  /** The inequality of Bhatia and Davis. */
  lemma BhatiaDavis(s: seq<int>, lo: int, hi: int)
    requires s != [] && Within(s, lo, hi)
    ensures Deviations(s, Mean(s)) <= Times(|s| as real, Times(hi as real - Mean(s), Mean(s) - lo as real))
  {
    DeviationsBelow(s, lo, hi, Mean(s));
    MeanTimesCount(s);
    ChordAtMean(lo as real, hi as real, Mean(s), Sum(s) as real, |s| as real);
  }

  lemma Middle(lo: real, hi: real, m: real)
    ensures Times(hi - m, m - lo) <= Times(hi - lo, hi - lo) / 4.0
  {
    SquareIsPositive(m - (hi + lo) / 2.0);
    assert Times(hi - m, m - lo) == Times(hi - lo, hi - lo) / 4.0 - Times(m - (hi + lo) / 2.0, m - (hi + lo) / 2.0);
  }

  /** The inequality of Popoviciu. */
  lemma Popoviciu(s: seq<int>, lo: int, hi: int)
    requires s != [] && Within(s, lo, hi)
    ensures Deviations(s, Mean(s)) <= Times(|s| as real, Times(hi as real - lo as real, hi as real - lo as real) / 4.0)
  {
    BhatiaDavis(s, lo, hi);
    Middle(lo as real, hi as real, Mean(s));
    TimesCommutes(|s| as real, Times(hi as real - Mean(s), Mean(s) - lo as real));
    TimesCommutes(|s| as real, Times(hi as real - lo as real, hi as real - lo as real) / 4.0);
    TimesMonotone(Times(hi as real - Mean(s), Mean(s) - lo as real),
                  Times(hi as real - lo as real, hi as real - lo as real) / 4.0, |s| as real);
  }

  // ---- what the aggregator reports ----

  /** The value under the root: zero for fewer than two round trips. */
  function Variance(s: seq<int>): real {
    if |s| < 2 then 0.0 else Deviations(s, Mean(s)) / (|s| as real - 1.0)
  }

  lemma QuotientSign(x: real, n: real)
    requires n > 0.0
    ensures x > 0.0 <==> x / n > 0.0
    ensures x < 0.0 <==> x / n < 0.0
  {
    assert Times(x / n, n) == x;
    if x / n != 0.0 {
      TimesSign(x / n, n);
    }
  }

  lemma DivideBy(x: real, y: real, n: real)
    requires n > 0.0 && x <= y
    ensures x / n <= y / n
  {
    QuotientSign(y - x, n);
    assert (y - x) / n == y / n - x / n;
  }

  /** The variance is between zero and n / (n - 1) times a quarter of the squared range; zero only without spread. */
  lemma VarianceBounds(s: seq<int>, lo: int, hi: int)
    requires Within(s, lo, hi)
    ensures Variance(s) >= 0.0
    ensures Variance(s) == 0.0 <==> AllEqual(s)
    ensures |s| >= 2 ==>
      var range := hi as real - lo as real;
      Variance(s) <= Times(|s| as real, Times(range, range) / 4.0) / (|s| as real - 1.0)
  {
    if |s| >= 2 {
      var range := hi as real - lo as real;
      Popoviciu(s, lo, hi);
      DeviationsSign(s, Mean(s));
      NoSpreadExactlyWhen(s);
      QuotientSign(Deviations(s, Mean(s)), |s| as real - 1.0);
      DivideBy(Deviations(s, Mean(s)), Times(|s| as real, Times(range, range) / 4.0), |s| as real - 1.0);
    }
  }

  // ---- the variance without a mean ----

  /** The squared distances of x to all elements. */
  function Distances(s: seq<int>, x: int): int {
    if s == [] then 0 else Distances(s[..|s| - 1], x) + (s[|s| - 1] - x) * (s[|s| - 1] - x)
  }

  /** The squared distances of all elements of `t` to all elements of `s`. */
  function PairDistances(s: seq<int>, t: seq<int>): int {
    if t == [] then 0 else PairDistances(s, t[..|t| - 1]) + Distances(s, t[|t| - 1])
  }

  lemma {:induction false} DistancesAreDeviations(s: seq<int>, x: int)
    ensures Deviations(s, x as real) == Distances(s, x) as real
  {
    if s != [] {
      DistancesAreDeviations(s[..|s| - 1], x);
      SquareAsReal(s[|s| - 1], x);
    }
  }

  lemma SquareAsReal(y: int, x: int)
    ensures Times(y as real - x as real, y as real - x as real) == ((y - x) * (y - x)) as real
  {
    assert y as real - x as real == (y - x) as real;
    ProductAsReal(y - x, y - x);
  }

  lemma ProductAsReal(a: int, b: int)
    ensures Times(a as real, b as real) == (a * b) as real
  {
  }

  /** Around each element, the deviations of `s` are those around its mean plus n times its own. */
  lemma {:induction false} PairsByMean(s: seq<int>, t: seq<int>)
    requires s != []
    ensures PairDistances(s, t) as real
      == Times(|t| as real, Deviations(s, Mean(s))) + Times(|s| as real, Deviations(t, Mean(s)))
  {
    if t != [] {
      var u, x, d, n := t[..|t| - 1], t[|t| - 1], Deviations(s, Mean(s)), |s| as real;
      PairsByMean(s, u);
      DistancesAreDeviations(s, x);
      MeanIsBest(s, x as real);
      var q := Times(x as real - Mean(s), x as real - Mean(s));
      TimesPlus(|u| as real, 1.0, d);
      TimesPlus(Deviations(u, Mean(s)), q, n);
      TimesCommutes(n, Deviations(u, Mean(s)));
      TimesCommutes(n, q);
      TimesCommutes(n, Deviations(t, Mean(s)));
    }
  }

  lemma TimesPlus(a: real, b: real, x: real)
    ensures Times(a + b, x) == Times(a, x) + Times(b, x)
    ensures Times(1.0, x) == x
  {
  }

  /** For n > 1 elements, 2 n (n - 1) times the variance is the sum of the squared distances of all pairs. */
  lemma VarianceByPairs(s: seq<int>)
    requires |s| >= 2
    ensures Times(Times(2.0 * |s| as real, |s| as real - 1.0), Variance(s)) == PairDistances(s, s) as real
  {
    PairsByMean(s, s);
    var n, d := |s| as real, Deviations(s, Mean(s));
    DividedBack(n - 1.0, d);
    Regroup(n, n - 1.0, d / (n - 1.0));
  }

  lemma DividedBack(m: real, d: real)
    requires m > 0.0
    ensures Times(m, d / m) == d
  {
  }

  lemma Regroup(n: real, m: real, v: real)
    ensures Times(Times(2.0 * n, m), v) == 2.0 * Times(n, Times(m, v))
  {
  }

  /** What the statistics rely on of the square root function. */
  ghost predicate IsRoot(root: real -> real) {
    forall x: real :: x >= 0.0 ==> root(x) >= 0.0 && Times(root(x), root(x)) == x
  }

  class MetricsAggregator {
    var chunkRttUs: seq<int>

    constructor ()
      ensures chunkRttUs == []
    {
      chunkRttUs := [];
    }

    method RecordChunkRttUs(rttUs: int)
      modifies this
      ensures chunkRttUs == old(chunkRttUs) + [rttUs]
    {
      chunkRttUs := chunkRttUs + [rttUs];
    }

    /** The average in milliseconds, which no bound on the round trips excludes. */
    method GetAvgChunkRttMs() returns (avg: real)
      ensures chunkRttUs == [] ==> avg == 0.0
      ensures chunkRttUs != [] ==> avg * 1000.0 == Mean(chunkRttUs)
      ensures forall lo, hi :: chunkRttUs != [] && Within(chunkRttUs, lo, hi) ==>
        lo as real <= avg * 1000.0 <= hi as real
    {
      if chunkRttUs == [] {
        return 0.0;
      }
      var sumRttUs := 0;
      for i := 0 to |chunkRttUs|
        invariant sumRttUs == Sum(chunkRttUs[..i])
      {
        NextSum(chunkRttUs, i);
        sumRttUs := sumRttUs + chunkRttUs[i];
      }
      assert chunkRttUs[..|chunkRttUs|] == chunkRttUs;
      avg := sumRttUs as real / |chunkRttUs| as real / 1000.0;
      forall lo, hi | Within(chunkRttUs, lo, hi)
        ensures lo as real <= Mean(chunkRttUs) <= hi as real
      {
        MeanWithin(chunkRttUs, lo, hi);
      }
    }

    method GetMinChunkRttMs() returns (min: real)
      ensures chunkRttUs == [] ==> min == 0.0
      ensures chunkRttUs != [] ==> exists m :: m in chunkRttUs && min * 1000.0 == m as real
      ensures forall i :: 0 <= i < |chunkRttUs| ==> min * 1000.0 <= chunkRttUs[i] as real
    {
      if chunkRttUs == [] {
        return 0.0;
      }
      var m := chunkRttUs[0];
      for i := 1 to |chunkRttUs|
        invariant m in chunkRttUs
        invariant forall j :: 0 <= j < i ==> m <= chunkRttUs[j]
      {
        if chunkRttUs[i] < m {
          m := chunkRttUs[i];
        }
      }
      min := m as real / 1000.0;
    }

    method GetMaxChunkRttMs() returns (max: real)
      ensures chunkRttUs == [] ==> max == 0.0
      ensures chunkRttUs != [] ==> exists m :: m in chunkRttUs && max * 1000.0 == m as real
      ensures forall i :: 0 <= i < |chunkRttUs| ==> chunkRttUs[i] as real <= max * 1000.0
    {
      if chunkRttUs == [] {
        return 0.0;
      }
      var m := chunkRttUs[0];
      for i := 1 to |chunkRttUs|
        invariant m in chunkRttUs
        invariant forall j :: 0 <= j < i ==> chunkRttUs[j] <= m
      {
        if m < chunkRttUs[i] {
          m := chunkRttUs[i];
        }
      }
      max := m as real / 1000.0;
    }

    /** The value under the root, in square microseconds. */
    method GetVariance() returns (variance: real)
      ensures variance == Variance(chunkRttUs)
      ensures |chunkRttUs| < 2 ==> variance == 0.0
      ensures |chunkRttUs| >= 2 ==>
        var n := |chunkRttUs| as real;
        Times(Times(2.0 * n, n - 1.0), variance) == PairDistances(chunkRttUs, chunkRttUs) as real
    {
      if |chunkRttUs| < 2 {
        return 0.0;
      }
      var avg := GetAvgChunkRttMs();
      var mean := avg * 1000.0;
      var sqSum := 0.0;
      for i := 0 to |chunkRttUs|
        invariant sqSum == Deviations(chunkRttUs[..i], mean)
      {
        NextSum(chunkRttUs, i);
        var d := chunkRttUs[i] as real - mean;
        assert d * d == Times(d, d);
        sqSum := sqSum + d * d;
      }
      assert chunkRttUs[..|chunkRttUs|] == chunkRttUs;
      variance := sqSum / (|chunkRttUs| as real - 1.0);
      VarianceByPairs(chunkRttUs);
    }

    /** The standard deviation in milliseconds. */
    method GetStdDevChunkRttMs(root: real -> real) returns (stdDev: real)
      requires IsRoot(root)
      ensures stdDev >= 0.0
      ensures Times(stdDev * 1000.0, stdDev * 1000.0) == Variance(chunkRttUs)
      ensures |chunkRttUs| < 2 ==> stdDev == 0.0
    {
      if |chunkRttUs| < 2 {
        return 0.0;
      }
      var variance := GetVariance();
      assert variance >= 0.0 by {
        DeviationsSign(chunkRttUs, Mean(chunkRttUs));
        QuotientSign(Deviations(chunkRttUs, Mean(chunkRttUs)), |chunkRttUs| as real - 1.0);
      }
      stdDev := root(variance) / 1000.0;
      assert stdDev * 1000.0 == root(variance);
    }
  }
}
