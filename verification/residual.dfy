/**
 The model-residual detector. A series of fewer than two points has no
 anomalies. Otherwise a one-input linear model `w * i + b` is fitted to the
 points by gradient descent, and an index is an anomaly when its residual
 |y_i - prediction_i| exceeds 1.2 times the mean residual.

 The fit itself (randomly initialised, 100 steps of single-precision SGD) is
 not modelled: the fitted model, or more generally the prediction vector, is
 an input. Arithmetic is over exact reals.
 */
module Residual {
  import opened Indices
  import opened Stats

  /** A fitted one-input linear layer: the prediction at index `i` is `weight * i + bias`. */
  datatype Linear = Linear(weight: real, bias: real)

  /** The factor by which a residual must exceed the mean residual to be flagged. */
  const ResidualFactor: real := 1.2

  /**
   The model's prediction at each index `0 .. n-1`: a straight line that
   starts at the bias and rises by the weight from one index to the next.
   */
  function Predictions(m: Linear, n: nat): (p: seq<real>)
    ensures |p| == n
    ensures n > 0 ==> p[0] == m.bias
    ensures forall i :: 0 <= i < n - 1 ==> p[i + 1] - p[i] == m.weight
  {
    seq(n, i requires 0 <= i < n => m.weight * (i as real) + m.bias)
  }

  /** The absolute residual of each point against its prediction. */
  function Residuals(ys: seq<real>, preds: seq<real>): (r: seq<real>)
    requires |preds| == |ys|
    ensures |r| == |ys| && NonNegative(r)
  {
    seq(|ys|, i requires 0 <= i < |ys| => Abs(ys[i] - preds[i]))
  }

  /** Point `i` misses its prediction by more than 1.2 times the mean residual. */
  predicate IsResidualOutlier(ys: seq<real>, preds: seq<real>, i: nat)
    requires |preds| == |ys| && i < |ys|
  {
    Abs(ys[i] - preds[i]) > ResidualFactor * Mean(Residuals(ys, preds))
  }

  /**
   The selection step of the detector, given one prediction per point: the
   ascending indices whose residual exceeds 1.2 times the mean residual, and
   none at all for fewer than two points.
   */
  function ResidualAnomalies(ys: seq<real>, preds: seq<real>): (r: seq<nat>)
    requires |preds| == |ys|
    ensures |ys| < 2 ==> r == []
    ensures StrictlyIncreasing(r) && InRange(r, |ys|)
    ensures |ys| >= 2 ==> forall i :: 0 <= i < |ys| ==> (i in r <==> IsResidualOutlier(ys, preds, i))
  {
    if |ys| < 2 then []
    else Where(AboveMask(Residuals(ys, preds), ResidualFactor * Mean(Residuals(ys, preds))))
  }

  /** The detector with its fitted linear model supplied. */
  function AiAnomalies(ys: seq<real>, m: Linear): (r: seq<nat>)
    ensures |ys| < 2 ==> r == []
    ensures StrictlyIncreasing(r) && InRange(r, |ys|)
    ensures |ys| >= 2 ==> forall i :: 0 <= i < |ys| ==> (i in r <==> IsResidualOutlier(ys, Predictions(m, |ys|), i))
    ensures |ys| >= 2 ==> forall i :: 0 <= i < |ys| ==>
      (i in r <==> Abs(ys[i] - (m.weight * (i as real) + m.bias)) > ResidualFactor * Mean(Residuals(ys, Predictions(m, |ys|))))
  {
    var preds := Predictions(m, |ys|);
    assert forall i :: 0 <= i < |ys| ==> preds[i] == m.weight * (i as real) + m.bias;
    ResidualAnomalies(ys, preds)
  }

  /** When every point misses its prediction by the same amount, including by nothing, no point is flagged. */
  lemma {:induction false} EqualResidualsHaveNoAnomalies(ys: seq<real>, preds: seq<real>, c: real)
    requires |preds| == |ys|
    requires forall i :: 0 <= i < |ys| ==> Abs(ys[i] - preds[i]) == c
    ensures ResidualAnomalies(ys, preds) == []
  {
    if |ys| >= 2 {
      NothingAboveWhenResidualsEqual(ys, preds, c);
    }
  }

  /** The selection mask of equal residuals holds nowhere. */
  lemma NothingAboveWhenResidualsEqual(ys: seq<real>, preds: seq<real>, c: real)
    requires |preds| == |ys| > 0
    requires forall i :: 0 <= i < |ys| ==> Abs(ys[i] - preds[i]) == c
    ensures Where(AboveMask(Residuals(ys, preds), ResidualFactor * Mean(Residuals(ys, preds)))) == []
  {
    ResidualsConstant(ys, preds, c);
    NoneAboveMultipleOfConstantMean(Residuals(ys, preds), c, ResidualFactor);
  }

  /** Points that all miss by `c` have the residual `c` everywhere, and `c` is not negative. */
  lemma ResidualsConstant(ys: seq<real>, preds: seq<real>, c: real)
    requires |preds| == |ys| > 0
    requires forall i :: 0 <= i < |ys| ==> Abs(ys[i] - preds[i]) == c
    ensures c >= 0.0
    ensures forall i :: 0 <= i < |ys| ==> Residuals(ys, preds)[i] == c
  {
    assert Abs(ys[0] - preds[0]) == c;
  }

  /** A series lying exactly on the fitted line has no anomalies. */
  lemma ExactFitHasNoAnomalies(ys: seq<real>, m: Linear)
    requires forall i :: 0 <= i < |ys| ==> ys[i] == m.weight * (i as real) + m.bias
    ensures AiAnomalies(ys, m) == []
  {
    var preds := Predictions(m, |ys|);
    assert forall i :: 0 <= i < |ys| ==> Abs(ys[i] - preds[i]) == 0.0;
    EqualResidualsHaveNoAnomalies(ys, preds, 0.0);
  }

  /**
   Markov's bound at 1.2 times the mean: fewer than five sixths of the points
   of a non-empty series are flagged.
   */
  lemma {:induction false} FewerThanFiveSixthsAreAnomalies(ys: seq<real>, preds: seq<real>)
    requires |preds| == |ys| > 0
    ensures 6 * |ResidualAnomalies(ys, preds)| < 5 * |ys|
  {
    if |ys| >= 2 {
      var res := Residuals(ys, preds);
      MeanTimesLength(res);
      FewSelectedAboveFactorTimesMean(res, Mean(res));
    }
  }

  /** The mean times the length gives back the sum. */
  lemma MeanTimesLength(xs: seq<real>)
    requires |xs| > 0
    ensures Sum(xs) == (|xs| as real) * Mean(xs)
  {
    MulDivCancel(Sum(xs), |xs| as real);
  }

  /** Fewer than five sixths of `n` non-negative values averaging `v` are selected as lying above `1.2 * v`. */
  lemma FewSelectedAboveFactorTimesMean(d: seq<real>, v: real)
    requires |d| > 0 && NonNegative(d)
    requires Sum(d) == (|d| as real) * v
    ensures 6 * |Where(AboveMask(d, ResidualFactor * v))| < 5 * |d|
  {
    FewAboveMultipleOfMean(d, v, ResidualFactor);
    WhereCount(d, ResidualFactor * v);
    FiveSixthsAsInt(CountOver(d, ResidualFactor * v), |d|);
  }

  /** `1.2 * k < n` read over the integers. */
  lemma FiveSixthsAsInt(k: nat, n: nat)
    requires ResidualFactor * (k as real) < n as real
    ensures 6 * k < 5 * n
  {
  }
}
