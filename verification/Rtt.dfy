/** The round-trip statistics of a ping Check, over the reals. */
module Rtt {
  import opened GoInts

  /** A duration in nanoseconds as fractional milliseconds, cut to whole microseconds. */
  function MsOf(d: int64): real {
    (TruncDiv(d, 1000) as real) / 1000.0
  }

  /** What is cut off is less than a microsecond, and never the sign. */
  lemma MsOfNanos(d: int64)
    ensures 0 <= d ==> MsOf(d) * 1_000_000.0 <= d as real < MsOf(d) * 1_000_000.0 + 1000.0
    ensures d <= 0 ==> MsOf(d) * 1_000_000.0 - 1000.0 < d as real <= MsOf(d) * 1_000_000.0
    ensures d % 1000 == 0 ==> MsOf(d) * 1_000_000.0 == d as real
  {
    var q := TruncDiv(d, 1000);
    assert MsOf(d) * 1_000_000.0 == (1000 * q) as real;
  }

  function Samples(rtts: seq<int64>): (xs: seq<real>)
    ensures |xs| == |rtts|
  {
    seq(|rtts|, i requires 0 <= i < |rtts| => MsOf(rtts[i]))
  }

  function Sum(xs: seq<real>): real {
    if xs == [] then 0.0 else Sum(xs[..|xs| - 1]) + xs[|xs| - 1]
  }

  function Square(x: real): real {
    x * x
  }

  /** The squared distances from a. */
  function Distances(xs: seq<real>, a: real): (ds: seq<real>)
    ensures |ds| == |xs|
  {
    seq(|xs|, i requires 0 <= i < |xs| => Square(xs[i] - a))
  }

  function Spread(xs: seq<real>, a: real): real {
    Sum(Distances(xs, a))
  }

  function SumSq(xs: seq<real>): real {
    Spread(xs, 0.0)
  }

  ghost predicate Extremes(xs: seq<real>, lo: real, hi: real) {
    lo in xs && hi in xs && forall i :: 0 <= i < |xs| ==> lo <= xs[i] <= hi
  }

  /** The variance is what the standard deviation is the root of. */
  datatype Stats = Stats(lo: real, avg: real, hi: real, variance: real, stddev: real)

  /** d is the square root of v. */
  predicate IsRoot(d: real, v: real) {
    d >= 0.0 && Square(d) == v
  }

  /** The first loop of rttStats. */
  method Scan(rtts: seq<int64>) returns (lo: real, hi: real, sum: real)
    requires rtts != []
    ensures Extremes(Samples(rtts), lo, hi) && sum == Sum(Samples(rtts))
  {
    ghost var xs := Samples(rtts);
    lo, hi, sum := MsOf(rtts[0]), MsOf(rtts[0]), 0.0;
    assert lo == xs[0];
    for i := 0 to |rtts|
      invariant lo in xs && hi in xs && lo <= hi
      invariant forall j :: 0 <= j < i ==> lo <= xs[j] <= hi
      invariant sum == Sum(xs[..i])
    {
      var ms := MsOf(rtts[i]);
      assert ms == xs[i] && xs[..i + 1][..i] == xs[..i];
      sum := sum + ms;
      if ms < lo {
        lo := ms;
      }
      if ms > hi {
        hi := ms;
      }
    }
    assert xs[..|xs|] == xs;
  }

  /** The second loop of rttStats. */
  method SquaredDistances(rtts: seq<int64>, avg: real) returns (sumSq: real)
    ensures sumSq == Spread(Samples(rtts), avg)
  {
    ghost var xs := Samples(rtts);
    sumSq := 0.0;
    for i := 0 to |rtts|
      invariant sumSq == Spread(xs[..i], avg)
    {
      var diff := MsOf(rtts[i]) - avg;
      assert diff == xs[i] - avg;
      DistancesNext(xs[..i], xs[i], avg);
      assert xs[..i + 1] == xs[..i] + [xs[i]];
      sumSq := sumSq + diff * diff;
    }
    assert xs[..|xs|] == xs;
  }

  /** rttStats, for any math.Sqrt. */
  method RttStats(rtts: seq<int64>, sqrt: real -> real) returns (s: Stats)
    requires rtts != []
    ensures var xs := Samples(rtts);
            Extremes(xs, s.lo, s.hi) && Describes(SumsOf(xs, s.avg), s.avg, s.variance)
    ensures Coherent(s) && s.stddev == sqrt(s.variance)
    // Where sqrt is exact, the deviation is at most half the range.
    ensures IsRoot(sqrt(s.variance), s.variance) ==> 0.0 <= s.stddev <= (s.hi - s.lo) / 2.0
  {
    var lo, hi, sum := Scan(rtts);
    var n := |rtts| as real;
    var avg := sum / n;
    var sumSq := SquaredDistances(rtts, avg);
    s := Stats(lo, avg, hi, sumSq / n, sqrt(sumSq / n));
    Quotients(SumsOf(Samples(rtts), avg));
    StatsCoherent(Samples(rtts), s);
    if IsRoot(s.stddev, s.variance) {
      DeviationBound(s);
    }
  }

  lemma TimesQuotient(a: real, n: real)
    requires n > 0.0
    ensures a / n * n == a
  {
  }

  /**
   The average lies between the extremes, and the variance is at most
   (hi - avg)(avg - lo), which is at most a quarter of the squared range.
   */
  ghost predicate Coherent(s: Stats) {
    && s.lo <= s.avg <= s.hi
    && 0.0 <= s.variance <= (s.hi - s.avg) * (s.avg - s.lo) <= (s.hi - s.lo) * (s.hi - s.lo) / 4.0
  }

  lemma {:induction false} SumBounds(xs: seq<real>, lo: real, hi: real)
    requires forall i :: 0 <= i < |xs| ==> lo <= xs[i] <= hi
    ensures lo * |xs| as real <= Sum(xs) <= hi * |xs| as real
  {
    if xs != [] {
      SumBounds(xs[..|xs| - 1], lo, hi);
    }
  }

  lemma DistancesNext(xs: seq<real>, x: real, a: real)
    ensures Spread(xs + [x], a) == Spread(xs, a) + Square(x - a)
  {
    assert Distances(xs + [x], a) == Distances(xs, a) + [Square(x - a)];
    assert (Distances(xs, a) + [Square(x - a)])[..|xs|] == Distances(xs, a);
  }

  /** The sums over a sample: of the squared distances from some a, of the squares, of the values, of ones. */
  datatype Sums = Sums(spread: real, sq: real, sum: real, n: real)

  function SumsOf(xs: seq<real>, a: real): Sums {
    Sums(Spread(xs, a), SumSq(xs), Sum(xs), |xs| as real)
  }

  ghost predicate Expanded(s: Sums, a: real) {
    s.spread == s.sq - 2.0 * a * s.sum + a * a * s.n
  }

  ghost predicate SquaresBounded(s: Sums, lo: real, hi: real) {
    s.sq <= (lo + hi) * s.sum - lo * hi * s.n
  }

  function AddSample(s: Sums, x: real, a: real): Sums {
    Sums(s.spread + Square(x - a), s.sq + Square(x), s.sum + x, s.n + 1.0)
  }

  lemma SumsNext(xs: seq<real>, x: real, a: real)
    ensures SumsOf(xs + [x], a) == AddSample(SumsOf(xs, a), x, a)
  {
    DistancesNext(xs, x, a);
    DistancesNext(xs, x, 0.0);
    assert (xs + [x])[..|xs|] == xs;
  }

  lemma ExpandedNext(s: Sums, x: real, a: real)
    requires Expanded(s, a)
    ensures Expanded(AddSample(s, x, a), a)
  {
    assert (x - a) * (x - a) == x * x - 2.0 * a * x + a * a;
    assert 2.0 * a * (s.sum + x) == 2.0 * a * s.sum + 2.0 * a * x;
    assert a * a * (s.n + 1.0) == a * a * s.n + a * a;
  }

  lemma SquaresBoundedNext(s: Sums, x: real, a: real, lo: real, hi: real)
    requires SquaresBounded(s, lo, hi) && lo <= x <= hi
    ensures SquaresBounded(AddSample(s, x, a), lo, hi)
  {
    ProductSign(hi - x, x - lo);
    assert (hi - x) * (x - lo) == (lo + hi) * x - lo * hi - x * x;
    assert (lo + hi) * (s.sum + x) == (lo + hi) * s.sum + (lo + hi) * x;
    assert lo * hi * (s.n + 1.0) == lo * hi * s.n + lo * hi;
  }

  /** The sum of (x - a)^2, multiplied out. */
  lemma {:induction false} SpreadExpands(xs: seq<real>, a: real)
    ensures Expanded(SumsOf(xs, a), a)
  {
    if xs != [] {
      var x, ys := xs[|xs| - 1], xs[..|xs| - 1];
      SpreadExpands(ys, a);
      ExpandedNext(SumsOf(ys, a), x, a);
      SumsNext(ys, x, a);
      assert xs == ys + [x];
    }
  }

  /** Each sample lies between the extremes, so (hi - x)(x - lo) sums to something not negative. */
  lemma {:induction false} SquaresBound(xs: seq<real>, a: real, lo: real, hi: real)
    requires forall i :: 0 <= i < |xs| ==> lo <= xs[i] <= hi
    ensures SquaresBounded(SumsOf(xs, a), lo, hi)
  {
    if xs != [] {
      var x, ys := xs[|xs| - 1], xs[..|xs| - 1];
      SquaresBound(ys, a, lo, hi);
      SquaresBoundedNext(SumsOf(ys, a), x, a, lo, hi);
      SumsNext(ys, x, a);
      assert xs == ys + [x];
    }
  }

  lemma ProductSign(a: real, b: real)
    requires a >= 0.0 && b >= 0.0
    ensures a * b >= 0.0
  {
  }

  lemma SquareSign(a: real)
    ensures Square(a) >= 0.0 && (a != 0.0 ==> Square(a) > 0.0) && (a == 0.0 ==> Square(a) == 0.0)
  {
    if a < 0.0 {
      ProductPositive(-a);
      assert Square(a) == Square(-a);
    } else if a > 0.0 {
      ProductPositive(a);
    }
  }

  lemma PositiveProduct(a: real, b: real) returns (c: real)
    requires a > 0.0 && b > 0.0
    ensures c == a * b && c > 0.0
  {
    c := a * b;
  }

  lemma ProductPositive(a: real)
    requires a > 0.0
    ensures Square(a) > 0.0
  {
    var c := PositiveProduct(a, a);
    assert Square(a) == c;
  }

  /** Multiplying by a positive number keeps an inequality, both ways. */
  lemma Scale(a: real, b: real, n: real)
    requires n > 0.0
    ensures a <= b <==> a * n <= b * n
    ensures a == b <==> a * n == b * n
  {
  }

  lemma {:induction false} SumSign(ds: seq<real>)
    requires forall i :: 0 <= i < |ds| ==> ds[i] >= 0.0
    ensures Sum(ds) >= 0.0
    ensures Sum(ds) == 0.0 <==> forall i :: 0 <= i < |ds| ==> ds[i] == 0.0
  {
    if ds != [] {
      var es := ds[..|ds| - 1];
      SumSign(es);
      assert forall i :: 0 <= i < |es| ==> ds[i] == es[i];
    }
  }

  lemma SpreadSign(xs: seq<real>, a: real)
    ensures Spread(xs, a) >= 0.0
    ensures Spread(xs, a) == 0.0 <==> forall i :: 0 <= i < |xs| ==> xs[i] == a
  {
    var ds := Distances(xs, a);
    forall i | 0 <= i < |xs|
      ensures ds[i] >= 0.0 && (xs[i] != a ==> ds[i] > 0.0) && (xs[i] == a ==> ds[i] == 0.0)
    {
      var e := xs[i] - a;
      SquareSign(e);
      assert ds[i] == Square(e);
    }
    SumSign(ds);
  }

  /** The average and variance of a sample with these sums. */
  ghost predicate Describes(s: Sums, avg: real, v: real) {
    s.n > 0.0 && avg * s.n == s.sum && v * s.n == s.spread
  }

  lemma Quotients(s: Sums)
    requires s.n > 0.0
    ensures Describes(s, s.sum / s.n, s.spread / s.n)
  {
    TimesQuotient(s.sum, s.n);
    TimesQuotient(s.spread, s.n);
  }

  /** The mean of squares less the square of the mean. */
  lemma VarianceIdentity(s: Sums, avg: real, v: real)
    requires Describes(s, avg, v) && Expanded(s, avg)
    ensures v == s.sq / s.n - avg * avg
  {
    var p, q := avg * avg, s.sq / s.n;
    TimesQuotient(s.sq, s.n);
    assert avg * s.sum == p * s.n;
    assert 2.0 * avg * s.sum == 2.0 * (avg * s.sum);
    assert (q - p) * s.n == q * s.n - p * s.n;
    Scale(v, q - p, s.n);
  }

  lemma VarianceBound(s: Sums, avg: real, v: real, lo: real, hi: real)
    requires Describes(s, avg, v) && Expanded(s, avg) && SquaresBounded(s, lo, hi)
    ensures v <= (hi - avg) * (avg - lo)
  {
    var c, d, q := lo + hi, lo * hi, s.sq / s.n;
    VarianceIdentity(s, avg, v);
    TimesQuotient(s.sq, s.n);
    assert c * s.sum == c * avg * s.n;
    assert (c * avg - d) * s.n == c * avg * s.n - d * s.n;
    Scale(q, c * avg - d, s.n);
    assert (hi - avg) * (avg - lo) == c * avg - d - avg * avg;
  }

  lemma QuarterRange(lo: real, hi: real, avg: real)
    ensures (hi - avg) * (avg - lo) <= (hi - lo) * (hi - lo) / 4.0
  {
    var a, b := hi - avg, avg - lo;
    SquareSign(a - b);
    assert (a - b) * (a - b) == a * a - 2.0 * (a * b) + b * b;
    assert (a + b) * (a + b) == a * a + 2.0 * (a * b) + b * b;
    assert a + b == hi - lo;
  }

  lemma MeanBetween(s: Sums, avg: real, v: real, lo: real, hi: real)
    requires Describes(s, avg, v) && lo * s.n <= s.sum <= hi * s.n
    ensures lo <= avg <= hi
  {
    Scale(lo, avg, s.n);
    Scale(avg, hi, s.n);
  }

  lemma VarianceZero(s: Sums, avg: real, v: real)
    requires Describes(s, avg, v) && s.spread >= 0.0
    ensures v >= 0.0 && (v == 0.0 <==> s.spread == 0.0)
  {
    Scale(0.0, v, s.n);
    assert 0.0 * s.n == 0.0;
  }

  lemma StatsBetween(xs: seq<real>, s: Stats)
    requires Extremes(xs, s.lo, s.hi) && Describes(SumsOf(xs, s.avg), s.avg, s.variance)
    ensures s.lo <= s.avg <= s.hi
  {
    SumBounds(xs, s.lo, s.hi);
    MeanBetween(SumsOf(xs, s.avg), s.avg, s.variance, s.lo, s.hi);
  }

  lemma StatsZero(xs: seq<real>, s: Stats)
    requires Extremes(xs, s.lo, s.hi) && Describes(SumsOf(xs, s.avg), s.avg, s.variance)
    ensures 0.0 <= s.variance && (s.variance == 0.0 <==> s.lo == s.hi)
  {
    StatsBetween(xs, s);
    SpreadSign(xs, s.avg);
    VarianceZero(SumsOf(xs, s.avg), s.avg, s.variance);
    assert s.lo == s.hi ==> forall i :: 0 <= i < |xs| ==> xs[i] == s.avg;
  }

  lemma StatsVariance(xs: seq<real>, s: Stats)
    requires Extremes(xs, s.lo, s.hi) && Describes(SumsOf(xs, s.avg), s.avg, s.variance)
    ensures s.variance == SumSq(xs) / |xs| as real - s.avg * s.avg
    ensures s.variance <= (s.hi - s.avg) * (s.avg - s.lo)
  {
    SpreadExpands(xs, s.avg);
    SquaresBound(xs, s.avg, s.lo, s.hi);
    VarianceIdentity(SumsOf(xs, s.avg), s.avg, s.variance);
    VarianceBound(SumsOf(xs, s.avg), s.avg, s.variance, s.lo, s.hi);
  }

  lemma StatsCoherent(xs: seq<real>, s: Stats)
    requires Extremes(xs, s.lo, s.hi) && Describes(SumsOf(xs, s.avg), s.avg, s.variance)
    ensures Coherent(s)
  {
    StatsBetween(xs, s);
    StatsZero(xs, s);
    StatsVariance(xs, s);
    QuarterRange(s.lo, s.hi, s.avg);
  }

  /** The standard deviation is at most half the range. */
  lemma DeviationBound(s: Stats)
    requires Coherent(s) && IsRoot(s.stddev, s.variance)
    ensures s.stddev <= (s.hi - s.lo) / 2.0
  {
    var half := (s.hi - s.lo) / 2.0;
    assert half * half == (s.hi - s.lo) * (s.hi - s.lo) / 4.0;
    SquareOrder(half, s.stddev);
  }

  lemma SquareOrder(a: real, b: real)
    requires a >= 0.0 && b >= 0.0
    ensures a < b ==> Square(a) < Square(b)
  {
    if a < b {
      var c := PositiveProduct(b - a, b);
      ProductSign(b - a, a);
      assert (b - a) * b == b * b - a * b && (b - a) * a == a * b - a * a;
    }
  }
}
