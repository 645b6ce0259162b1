/**
 The statistical outlier detector: a series of fewer than two points has no
 outliers; otherwise an index is an outlier when its absolute z-score, taken
 with the population standard deviation (ddof = 0), exceeds 2.

 This is a real-arithmetic abstraction of floating-point code. The square
 root is avoided: index i is flagged iff (x_i - mean)^2 > 4 * variance, which
 for sigma >= 0 with sigma^2 = variance is the same test as
 |x_i - mean| / sigma > 2 (lemma `ZScoreTestAgrees`). A constant series has
 sigma = 0; the floating-point code then divides 0 by 0, the NaN it gets
 compares false, and nothing is flagged, which the squared form reproduces
 since 0 > 0 is false.
 */
module ZScore {
  import opened Indices
  import opened Stats

  /** The squared deviation of every point from the series mean. */
  function SquaredDeviations(xs: seq<real>): (d: seq<real>)
    requires |xs| > 0
    ensures |d| == |xs| && NonNegative(d)
  {
    seq(|xs|, i requires 0 <= i < |xs| => Sq(xs[i] - Mean(xs)))
  }

  /** The population variance: mean squared deviation, dividing by n. */
  function Variance(xs: seq<real>): real
    requires |xs| > 0
  {
    Sum(SquaredDeviations(xs)) / (|xs| as real)
  }

  /** Index `i` lies more than two standard deviations from the mean, in squared form. */
  predicate IsOutlier(xs: seq<real>, i: nat)
    requires i < |xs|
  {
    Sq(xs[i] - Mean(xs)) > 4.0 * Variance(xs)
  }

  /**
   The z-score test as the floating-point code performs it, given the
   standard deviation `sigma`: |x_i - mean| / sigma > 2, where a zero sigma
   yields NaN and so never passes.
   */
  predicate ZScoreAbove(xs: seq<real>, i: nat, sigma: real)
    requires i < |xs|
  {
    sigma > 0.0 && Abs(xs[i] - Mean(xs)) / sigma > 2.0
  }

  /** The indices of the outliers of `xs`, in ascending order; none for fewer than two points. */
  function SimpleAnomalies(xs: seq<real>): (r: seq<nat>)
    ensures |xs| < 2 ==> r == []
    ensures StrictlyIncreasing(r) && InRange(r, |xs|)
    ensures |xs| >= 2 ==> forall i :: 0 <= i < |xs| ==> (i in r <==> IsOutlier(xs, i))
  {
    if |xs| < 2 then []
    else Where(AboveMask(SquaredDeviations(xs), 4.0 * Variance(xs)))
  }

  /** The variance is never negative and no squared deviation exceeds n times the variance. */
  lemma VarianceBounds(xs: seq<real>)
    requires |xs| > 0
    ensures Variance(xs) >= 0.0
    ensures forall i :: 0 <= i < |xs| ==> Sq(xs[i] - Mean(xs)) <= (|xs| as real) * Variance(xs)
  {
    var d := SquaredDeviations(xs);
    SquaredDeviationsSum(xs);
    SumBoundsElements(d);
    assert forall i :: 0 <= i < |xs| ==> d[i] == Sq(xs[i] - Mean(xs));
  }

  /**
   For any standard deviation sigma >= 0 whose square is the variance, the
   squared test flags exactly the indices the z-score test flags.
   */
  lemma ZScoreTestAgrees(xs: seq<real>, i: nat, sigma: real)
    requires i < |xs|
    requires sigma >= 0.0 && sigma * sigma == Variance(xs)
    ensures IsOutlier(xs, i) <==> ZScoreAbove(xs, i, sigma)
  {
    var dev := xs[i] - Mean(xs);
    VarianceBounds(xs);
    assert Sq(dev) == Abs(dev) * Abs(dev);
    if sigma == 0.0 {
      assert Sq(dev) <= 0.0;
    } else {
      DivAbove(Abs(dev), sigma, 2.0);
      SquareMonotone(Abs(dev), 2.0 * sigma);
    }
  }

  /** For non-negative reals, comparing squares is comparing the values. */
  lemma SquareMonotone(a: real, b: real)
    requires a >= 0.0 && b >= 0.0
    ensures a > b <==> a * a > b * b
  {
    if a > b {
      MulPos(a, a - b);
      MulNonNegative(b, a - b);
      assert a * a == b * b + a * (a - b) + b * (a - b);
    } else {
      MulNonNegative(b, b - a);
      MulNonNegative(a, b - a);
      assert b * b == a * a + b * (b - a) + a * (b - a);
    }
  }

  /** A constant series has no outliers. */
  lemma {:induction false} ConstantSeriesHasNoAnomalies(xs: seq<real>, c: real)
    requires forall i :: 0 <= i < |xs| ==> xs[i] == c
    ensures SimpleAnomalies(xs) == []
  {
    if |xs| >= 2 {
      MeanConstant(xs, c);
      VarianceBounds(xs);
      var mask := AboveMask(SquaredDeviations(xs), 4.0 * Variance(xs));
      assert forall i :: 0 <= i < |mask| ==> !mask[i];
      WhereNone(mask);
    }
  }

  /**
   Chebyshev's bound at two standard deviations: fewer than a quarter of the
   points of a non-empty series are outliers.
   */
  lemma {:induction false} AtMostAQuarterAreAnomalies(xs: seq<real>)
    requires |xs| > 0
    ensures 4 * |SimpleAnomalies(xs)| < |xs|
  {
    if |xs| >= 2 {
      SquaredDeviationsSum(xs);
      FewSelectedAboveFourTimesMean(SquaredDeviations(xs), Variance(xs));
    }
  }

  /** The squared deviations add up to n times the variance. */
  lemma SquaredDeviationsSum(xs: seq<real>)
    requires |xs| > 0
    ensures Sum(SquaredDeviations(xs)) == (|xs| as real) * Variance(xs)
  {
    MulDivCancel(Sum(SquaredDeviations(xs)), |xs| as real);
  }

  /** Fewer than a quarter of `n` non-negative values averaging `v` are selected as lying above `4 * v`. */
  lemma FewSelectedAboveFourTimesMean(d: seq<real>, v: real)
    requires |d| > 0 && NonNegative(d)
    requires Sum(d) == (|d| as real) * v
    ensures 4 * |Where(AboveMask(d, 4.0 * v))| < |d|
  {
    FewAboveMultipleOfMean(d, v, 4.0);
    WhereCount(d, 4.0 * v);
    QuarterAsInt(CountOver(d, 4.0 * v), |d|);
  }

  /** `4 * k < n` read over the integers. */
  lemma QuarterAsInt(k: nat, n: nat)
    requires 4.0 * (k as real) < n as real
    ensures 4 * k < n
  {
  }

  /** Adding the same constant to every point leaves the outliers unchanged. */
  lemma {:induction false} ShiftInvariant(xs: seq<real>, ys: seq<real>, c: real)
    requires |ys| == |xs|
    requires forall i :: 0 <= i < |xs| ==> ys[i] == xs[i] + c
    ensures SimpleAnomalies(ys) == SimpleAnomalies(xs)
  {
    if |xs| >= 2 {
      DeviationsOfShifted(xs, ys, c);
      assert Variance(ys) == Variance(xs);
      assert AboveMask(SquaredDeviations(ys), 4.0 * Variance(ys)) == AboveMask(SquaredDeviations(xs), 4.0 * Variance(xs));
    }
  }

  /** Shifting every point by `c` leaves every squared deviation as it was. */
  lemma DeviationsOfShifted(xs: seq<real>, ys: seq<real>, c: real)
    requires |ys| == |xs| > 0
    requires forall i :: 0 <= i < |xs| ==> ys[i] == xs[i] + c
    ensures SquaredDeviations(ys) == SquaredDeviations(xs)
  {
    MeanOfShifted(xs, ys, c);
    var dx, dy := SquaredDeviations(xs), SquaredDeviations(ys);
    assert forall i :: 0 <= i < |xs| ==> ys[i] - Mean(ys) == xs[i] - Mean(xs);
    assert forall i :: 0 <= i < |xs| ==> dy[i] == dx[i];
  }

  /** Shifting every point by `c` shifts the mean by `c`. */
  lemma MeanOfShifted(xs: seq<real>, ys: seq<real>, c: real)
    requires |ys| == |xs| > 0
    requires forall i :: 0 <= i < |xs| ==> ys[i] == xs[i] + c
    ensures Mean(ys) == Mean(xs) + c
  {
    SumShift(xs, ys, c);
    MeanShift(Sum(xs), |xs| as real, c);
  }

  /** Dividing a shifted sum: `(s + n * c) / n == s / n + c`. */
  lemma MeanShift(s: real, n: real, c: real)
    requires n > 0.0
    ensures (s + n * c) / n == s / n + c
  {
    MulDivCancel(s, n);
    MulDivCancel(s + n * c, n);
    assert n * (s / n + c) == s + n * c;
  }

  /** Nine points at 10 and one at 95: only the last one is an outlier. */
  lemma SpikeExample()
    ensures SimpleAnomalies([10.0, 10.0, 10.0, 10.0, 10.0, 10.0, 10.0, 10.0, 10.0, 95.0]) == [9]
  {
    var xs := [10.0, 10.0, 10.0, 10.0, 10.0, 10.0, 10.0, 10.0, 10.0, 95.0];
    var front := xs[..9];
    SumConstant(front, 10.0);
    assert Sum(xs) == 185.0;
    assert Mean(xs) == 18.5;
    var d := SquaredDeviations(xs);
    SumConstant(d[..9], 72.25);
    assert Sum(d) == 6502.5;
    assert Variance(xs) == 650.25;
    var mask := AboveMask(d, 2601.0);
    WhereNone(mask[..9]);
    WhereSnoc(mask);
  }
}
