/**
 Real-valued statistics shared by the two anomaly detectors: sum, mean,
 squares, absolute values, the "strictly above a bound" mask, and a counting
 bound (a Markov-style inequality) on how many non-negative values can lie
 above a bound.

 The detectors of the monitor work on floating-point arrays; this model
 replaces them by exact reals, so rounding and NaN propagation are not
 represented except where a lemma says so explicitly.
 */
module Stats {
  import opened Indices

  /** The sum of a series, accumulated from the front. */
  function Sum(xs: seq<real>): real
    decreases |xs|
  {
    if |xs| == 0 then 0.0 else Sum(xs[..|xs| - 1]) + xs[|xs| - 1]
  }

  /** The arithmetic mean of a non-empty series. */
  function Mean(xs: seq<real>): real
    requires |xs| > 0
  {
    Sum(xs) / (|xs| as real)
  }

  function Abs(x: real): real {
    if x < 0.0 then -x else x
  }

  function Sq(x: real): real {
    x * x
  }

  /** No element is negative. */
  predicate NonNegative(v: seq<real>) {
    forall i :: 0 <= i < |v| ==> v[i] >= 0.0
  }

  /** The element-wise comparison `v > t`, as a boolean mask. */
  function AboveMask(v: seq<real>, t: real): (mask: seq<bool>)
    ensures |mask| == |v|
    ensures forall i :: 0 <= i < |v| ==> (mask[i] <==> v[i] > t)
  {
    seq(|v|, i requires 0 <= i < |v| => v[i] > t)
  }

  /** The mask of a prefix is the prefix of the mask. */
  lemma AboveMaskPrefix(v: seq<real>, t: real, n: nat)
    requires n <= |v|
    ensures AboveMask(v, t)[..n] == AboveMask(v[..n], t)
  {
  }

  /** A series of `n` copies of `c` sums to `n * c`. */
  lemma {:induction false} SumConstant(xs: seq<real>, c: real)
    requires forall i :: 0 <= i < |xs| ==> xs[i] == c
    ensures Sum(xs) == (|xs| as real) * c
    decreases |xs|
  {
    if |xs| > 0 {
      SumConstant(xs[..|xs| - 1], c);
    }
  }

  /** A non-empty series of copies of `c` has mean `c`. */
  lemma MeanConstant(xs: seq<real>, c: real)
    requires |xs| > 0
    requires forall i :: 0 <= i < |xs| ==> xs[i] == c
    ensures Mean(xs) == c
  {
    SumConstant(xs, c);
    MulDivCancel(c, |xs| as real);
  }

  /** In a non-empty series of copies of `c >= 0`, nothing lies above `f >= 1` times the mean. */
  lemma NoneAboveMultipleOfConstantMean(v: seq<real>, c: real, f: real)
    requires |v| > 0 && c >= 0.0 && f >= 1.0
    requires forall i :: 0 <= i < |v| ==> v[i] == c
    ensures Where(AboveMask(v, f * Mean(v))) == []
  {
    MeanConstant(v, c);
    ScaleUp(c, f);
    NoneAbove(v, f * Mean(v));
  }

  /** Scaling a non-negative value by a factor of at least one does not decrease it. */
  lemma ScaleUp(c: real, f: real)
    requires c >= 0.0 && f >= 1.0
    ensures c <= f * c
  {
    assert f * c - c == (f - 1.0) * c;
  }

  /** When no element exceeds `b`, nothing is selected as lying above `b`. */
  lemma NoneAbove(v: seq<real>, b: real)
    requires forall i :: 0 <= i < |v| ==> v[i] <= b
    ensures Where(AboveMask(v, b)) == []
  {
    WhereNone(AboveMask(v, b));
  }

  /** A series of non-negative values has a non-negative sum that bounds each of its elements. */
  lemma {:induction false} SumBoundsElements(v: seq<real>)
    requires NonNegative(v)
    ensures Sum(v) >= 0.0
    ensures forall i :: 0 <= i < |v| ==> v[i] <= Sum(v)
    decreases |v|
  {
    if |v| > 0 {
      var front := v[..|v| - 1];
      SumBoundsElements(front);
      assert forall i :: 0 <= i < |front| ==> front[i] == v[i];
    }
  }

  /** A series of non-negative values has a non-negative sum. */
  lemma SumNonNegative(v: seq<real>)
    requires NonNegative(v)
    ensures Sum(v) >= 0.0
  {
    SumBoundsElements(v);
  }

  /** Adding `c` to every element adds `n * c` to the sum. */
  lemma {:induction false} SumShift(xs: seq<real>, ys: seq<real>, c: real)
    requires |ys| == |xs|
    requires forall i :: 0 <= i < |xs| ==> ys[i] == xs[i] + c
    ensures Sum(ys) == Sum(xs) + (|xs| as real) * c
    decreases |xs|
  {
    if |xs| > 0 {
      var n := |xs| - 1;
      SumShift(xs[..n], ys[..n], c);
    }
  }

  /** How many elements of `v` are strictly above `t`. */
  function CountOver(v: seq<real>, t: real): nat
    decreases |v|
  {
    if |v| == 0 then 0
    else CountOver(v[..|v| - 1], t) + (if v[|v| - 1] > t then 1 else 0)
  }

  /** Selecting the positions above `t` selects exactly `CountOver(v, t)` of them. */
  lemma {:induction false} WhereCount(v: seq<real>, t: real)
    ensures |Where(AboveMask(v, t))| == CountOver(v, t)
    decreases |v|
  {
    if |v| > 0 {
      var n := |v| - 1;
      WhereCount(v[..n], t);
      AboveMaskPrefix(v, t, n);
      WhereSnoc(AboveMask(v, t));
    }
  }

  /** `k` copies of `t` added up, a linear stand-in for the product `t * k`. */
  function Repeat(t: real, k: nat): (r: real)
    ensures r == t * (k as real)
  {
    if k == 0 then 0.0 else Repeat(t, k - 1) + t
  }

  /**
   Markov-style count: among non-negative values, those strictly above `t`
   contribute more than `t` each, so `k` of them force the sum to be at
   least `t * k`, and strictly more than that as soon as `k > 0`.
   */
  lemma CountOverBound(v: seq<real>, t: real)
    requires NonNegative(v)
    ensures Sum(v) >= t * (CountOver(v, t) as real)
    ensures CountOver(v, t) > 0 ==> Sum(v) > t * (CountOver(v, t) as real)
  {
    CountOverRepeat(v, t);
  }

  /** `CountOverBound` with the product written as repeated addition, proved by induction on the series. */
  lemma {:induction false} CountOverRepeat(v: seq<real>, t: real)
    requires NonNegative(v)
    ensures Sum(v) >= Repeat(t, CountOver(v, t))
    ensures CountOver(v, t) > 0 ==> Sum(v) > Repeat(t, CountOver(v, t))
    decreases |v|
  {
    if |v| > 0 {
      var n := |v| - 1;
      var front := v[..n];
      assert NonNegative(front) by {
        assert forall i :: 0 <= i < n ==> front[i] == v[i];
      }
      CountOverRepeat(front, t);
    }
  }

  /** Multiplying a quotient back by its non-zero divisor gives the dividend. */
  lemma MulDivCancel(s: real, n: real)
    requires n > 0.0
    ensures n * (s / n) == s
  {
  }

  /** The product of two non-negative reals is non-negative. */
  lemma MulNonNegative(x: real, y: real)
    requires x >= 0.0 && y >= 0.0
    ensures x * y >= 0.0
  {
  }

  /** The product of two positive reals is positive. */
  lemma MulPos(x: real, y: real)
    requires x > 0.0 && y > 0.0
    ensures x * y > 0.0
  {
  }

  /** With a positive divisor, `a / s > c` is `a > c * s`. */
  lemma DivAbove(a: real, s: real, c: real)
    requires s > 0.0
    ensures a / s > c <==> a > c * s
  {
    var q := a / s;
    MulDivCancel(a, s);
    if q > c {
      assert (q - c) * s > 0.0;
    } else {
      assert (c - q) * s >= 0.0;
    }
  }

  /**
   Among `n` non-negative values whose mean is `v`, fewer than `n / c` lie
   strictly above `c` times the mean: the count above the bound, times `c`,
   stays below `n`.
   */
  lemma FewAboveMultipleOfMean(d: seq<real>, v: real, c: real)
    requires |d| > 0 && NonNegative(d)
    requires Sum(d) == (|d| as real) * v
    ensures c * (CountOver(d, c * v) as real) < |d| as real
  {
    SumNonNegative(d);
    CountOverBound(d, c * v);
    MultipleBound(Sum(d), |d| as real, v, c, CountOver(d, c * v) as real);
  }

  /** The arithmetic behind the bound: a sum `n * v >= 0` exceeding `c * v * k` forces `c * k < n`. */
  lemma MultipleBound(s: real, n: real, v: real, c: real, k: real)
    requires n > 0.0 && k >= 0.0 && s >= 0.0 && s == n * v
    requires k > 0.0 ==> s > (c * v) * k
    ensures c * k < n
  {
    if k > 0.0 {
      assert v > 0.0;
      assert (n - c * k) * v > 0.0;
    } else {
      assert k == 0.0;
    }
  }
}
