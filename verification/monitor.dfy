/**
 The sampling run, seen from its data: each tick appends one sample to the
 buffer and reports the alerts for that sample; at the end of the run a
 non-empty buffer has both detectors run over its cpu column, and an empty
 buffer is reported as "no data collected".

 Timing (the wall-clock deadline and the sleep between ticks), reading the
 host, log tailing, cancellation and rendering are outside the model: the
 samples a run collected are given as a sequence.
 */
module Monitor {
  import opened Metrics
  import opened Alerts
  import opened Indices
  import ZScore
  import Residual

  /** The cpu percentage of every sample, in buffer order. */
  function CpuSeries(data: seq<Sample>): (s: seq<real>)
    ensures |s| == |data|
    ensures forall i :: 0 <= i < |data| ==> s[i] == data[i].cpu
  {
    seq(|data|, i requires 0 <= i < |data| => data[i].cpu)
  }

  /** The alerts reported at each tick, one list per sample. */
  function TickAlerts(data: seq<Sample>, t: Thresholds): (ticks: seq<seq<Alert>>)
    ensures |ticks| == |data|
    ensures forall i :: 0 <= i < |data| ==> |ticks[i]| <= 3
    ensures forall i, k :: 0 <= i < |data| ==> (k in MetricsOf(ticks[i]) <==> Exceeds(data[i], t, k))
    ensures forall i, j :: 0 <= i < |data| && 0 <= j < |ticks[i]| ==>
      ticks[i][j].observed == Value(data[i], ticks[i][j].metric)
    ensures forall i, j, j' :: 0 <= i < |data| && 0 <= j < j' < |ticks[i]| ==>
      Rank(ticks[i][j].metric) < Rank(ticks[i][j'].metric)
  {
    seq(|data|, i requires 0 <= i < |data| => CheckAlerts(data[i], t))
  }

  /** What the end of a run reports. */
  datatype Report =
    | NoData
    | Analysed(simple: seq<nat>, ai: seq<nat>)

  /**
   End of run: with no sample collected, nothing is analysed; otherwise both
   detectors run over the cpu column, the residual detector with the linear
   model fitted to that column supplied as `fit`.
   */
  function EndOfRun(data: seq<Sample>, fit: Residual.Linear): (rep: Report)
    ensures rep.NoData? <==> |data| == 0
    ensures rep.Analysed? ==> StrictlyIncreasing(rep.simple) && InRange(rep.simple, |data|)
    ensures rep.Analysed? ==> StrictlyIncreasing(rep.ai) && InRange(rep.ai, |data|)
    ensures |data| == 1 ==> rep == Analysed([], [])
    ensures rep.Analysed? && |data| >= 2 ==>
      forall i :: 0 <= i < |data| ==> (i in rep.simple <==> ZScore.IsOutlier(CpuSeries(data), i))
    ensures rep.Analysed? && |data| >= 2 ==>
      forall i :: 0 <= i < |data| ==>
        (i in rep.ai <==> Residual.IsResidualOutlier(CpuSeries(data), Residual.Predictions(fit, |data|), i))
  {
    if |data| == 0 then NoData
    else
      var cpu := CpuSeries(data);
      Analysed(ZScore.SimpleAnomalies(cpu), Residual.AiAnomalies(cpu, fit))
  }

  /** Appending a sample leaves the alerts already reported for earlier ticks unchanged and adds that sample's alerts. */
  lemma TickAlertsAppend(data: seq<Sample>, s: Sample, t: Thresholds)
    ensures TickAlerts(data + [s], t) == TickAlerts(data, t) + [CheckAlerts(s, t)]
  {
    var ticks := TickAlerts(data + [s], t);
    assert forall i :: 0 <= i < |data| ==> (data + [s])[i] == data[i];
    assert ticks[|data|] == CheckAlerts(s, t);
  }

  /** A cpu spike on a flat buffer of ten samples is the one statistical anomaly reported at the end of the run. */
  lemma SpikeRunExample(data: seq<Sample>, fit: Residual.Linear)
    requires |data| == 10
    requires forall i :: 0 <= i < 9 ==> data[i].cpu == 10.0
    requires data[9].cpu == 95.0
    ensures EndOfRun(data, fit).simple == [9]
  {
    var cpu := CpuSeries(data);
    assert cpu == [10.0, 10.0, 10.0, 10.0, 10.0, 10.0, 10.0, 10.0, 10.0, 95.0];
    ZScore.SpikeExample();
  }
}
