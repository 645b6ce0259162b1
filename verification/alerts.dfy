/**
 Threshold alerting: one sample and the ceilings go in, the list of alerts
 comes out, cpu first, then memory, then disk. An alert names the metric and
 carries the observed value; the ceiling is not part of it.
 */
module Alerts {
  import opened Metrics

  /** One alert: which metric was over its ceiling and the value observed. */
  datatype Alert = Alert(metric: Metric, observed: real)

  /** The metrics that `r` raises an alert for. */
  function MetricsOf(r: seq<Alert>): set<Metric> {
    set i | 0 <= i < |r| :: r[i].metric
  }

  /** The metrics of sample `s` that are strictly over their ceilings. */
  function OverCeiling(s: Sample, t: Thresholds): set<Metric> {
    set k | k in AllMetrics && Exceeds(s, t, k)
  }

  /** The alerts of `r` whose metric is in `keep`, in their original order. */
  function Only(r: seq<Alert>, keep: set<Metric>): seq<Alert>
    decreases |r|
  {
    if |r| == 0 then []
    else (if r[0].metric in keep then [r[0]] else []) + Only(r[1..], keep)
  }

  /** The alert for metric `k` alone: one alert carrying its value when it is over its ceiling, none otherwise. */
  function AlertIfOver(s: Sample, t: Thresholds, k: Metric): seq<Alert> {
    if Exceeds(s, t, k) then [Alert(k, Value(s, k))] else []
  }

  /**
   Evaluates the three ceilings in turn, cpu, memory, disk, and emits an alert
   for each metric whose value is strictly greater than its ceiling.
   */
  function CheckAlerts(s: Sample, t: Thresholds): (r: seq<Alert>)
    ensures |r| <= 3
    ensures forall i :: 0 <= i < |r| ==> r[i].observed == Value(s, r[i].metric) && Exceeds(s, t, r[i].metric)
    ensures forall k :: k in MetricsOf(r) <==> Exceeds(s, t, k)
    ensures forall i, j :: 0 <= i < j < |r| ==> Rank(r[i].metric) < Rank(r[j].metric)
  {
    AlertPartsMetrics(s, t);
    AlertPartsRanked(s, t);
    AlertIfOver(s, t, Cpu) + AlertIfOver(s, t, Mem) + AlertIfOver(s, t, Disk)
  }

  /** The three per-metric parts together alert exactly the metrics over their ceilings. */
  lemma AlertPartsMetrics(s: Sample, t: Thresholds)
    ensures forall k :: k in MetricsOf(AlertIfOver(s, t, Cpu) + AlertIfOver(s, t, Mem) + AlertIfOver(s, t, Disk)) <==> Exceeds(s, t, k)
  {
    var cpu, mem, disk := AlertIfOver(s, t, Cpu), AlertIfOver(s, t, Mem), AlertIfOver(s, t, Disk);
    MetricsOfAtMostOne(cpu);
    MetricsOfAtMostOne(mem);
    MetricsOfAtMostOne(disk);
    MetricsOfAppend(cpu, mem);
    MetricsOfAppend(cpu + mem, disk);
  }

  /** The three per-metric parts together list cpu before memory before disk. */
  lemma AlertPartsRanked(s: Sample, t: Thresholds)
    ensures var r := AlertIfOver(s, t, Cpu) + AlertIfOver(s, t, Mem) + AlertIfOver(s, t, Disk);
      forall i, j :: 0 <= i < j < |r| ==> Rank(r[i].metric) < Rank(r[j].metric)
  {
  }

  /** An empty list alerts nothing; a one-alert list alerts its metric. */
  lemma MetricsOfAtMostOne(a: seq<Alert>)
    requires |a| <= 1
    ensures MetricsOf(a) == if |a| == 1 then {a[0].metric} else {}
  {
    if |a| == 1 {
      assert a[0].metric in MetricsOf(a);
    }
  }

  /** The metrics alerted by a concatenation are those alerted by either part. */
  lemma MetricsOfAppend(a: seq<Alert>, b: seq<Alert>)
    ensures MetricsOf(a + b) == MetricsOf(a) + MetricsOf(b)
  {
    var ab := a + b;
    forall k | k in MetricsOf(ab) ensures k in MetricsOf(a) + MetricsOf(b) {
      var i :| 0 <= i < |ab| && ab[i].metric == k;
      if i < |a| { assert a[i] == ab[i]; } else { assert b[i - |a|] == ab[i]; }
    }
    forall k | k in MetricsOf(a) + MetricsOf(b) ensures k in MetricsOf(ab) {
      if k in MetricsOf(a) {
        var i :| 0 <= i < |a| && a[i].metric == k;
        assert ab[i] == a[i];
      } else {
        var i :| 0 <= i < |b| && b[i].metric == k;
        assert ab[|a| + i] == b[i];
      }
    }
  }

  /** There are exactly as many alerts as metrics over their ceilings. */
  lemma AlertCount(s: Sample, t: Thresholds)
    ensures |CheckAlerts(s, t)| == |OverCeiling(s, t)|
  {
    var over := OverCeiling(s, t);
    var a, b, c := Exceeds(s, t, Cpu), Exceeds(s, t, Mem), Exceeds(s, t, Disk);
    if a && b && c { assert over == {Cpu, Mem, Disk}; }
    else if a && b { assert over == {Cpu, Mem}; }
    else if a && c { assert over == {Cpu, Disk}; }
    else if b && c { assert over == {Mem, Disk}; }
    else if a { assert over == {Cpu}; }
    else if b { assert over == {Mem}; }
    else if c { assert over == {Disk}; }
    else { assert over == {}; }
  }

  /** Restricted to one metric, the alerts are exactly one alert carrying its value when it is over, none otherwise. */
  lemma AlertPerMetric(s: Sample, t: Thresholds, k: Metric)
    ensures Only(CheckAlerts(s, t), {k}) == if Exceeds(s, t, k) then [Alert(k, Value(s, k))] else []
  {
    OnlyOfCheckAlerts(s, t, {k});
    match k
    case Cpu => assert Only(CheckAlerts(s, t), {k}) == AlertIfOver(s, t, Cpu) + [] + [];
    case Mem => assert Only(CheckAlerts(s, t), {k}) == [] + AlertIfOver(s, t, Mem) + [];
    case Disk => assert Only(CheckAlerts(s, t), {k}) == [] + [] + AlertIfOver(s, t, Disk);
  }

  /** Changing the value of one metric leaves the alerts of the other two metrics as they were. */
  lemma AlertsIndependent(s: Sample, s': Sample, t: Thresholds, k: Metric)
    requires forall j :: j != k ==> Value(s, j) == Value(s', j)
    ensures Only(CheckAlerts(s, t), {Cpu, Mem, Disk} - {k}) == Only(CheckAlerts(s', t), {Cpu, Mem, Disk} - {k})
  {
    var keep := {Cpu, Mem, Disk} - {k};
    OnlyOfCheckAlerts(s, t, keep);
    OnlyOfCheckAlerts(s', t, keep);
    match k
    case Cpu =>
      assert keep == {Mem, Disk};
      PartUnchanged(s, s', t, Mem);
      PartUnchanged(s, s', t, Disk);
    case Mem =>
      assert keep == {Cpu, Disk};
      PartUnchanged(s, s', t, Cpu);
      PartUnchanged(s, s', t, Disk);
    case Disk =>
      assert keep == {Cpu, Mem};
      PartUnchanged(s, s', t, Cpu);
      PartUnchanged(s, s', t, Mem);
  }

  /** A metric's own alert depends only on that metric's value. */
  lemma PartUnchanged(s: Sample, s': Sample, t: Thresholds, j: Metric)
    requires Value(s, j) == Value(s', j)
    ensures AlertIfOver(s, t, j) == AlertIfOver(s', t, j)
  {
  }

  /** Filtering the alerts keeps each kept metric's own alert and drops the others. */
  lemma OnlyOfCheckAlerts(s: Sample, t: Thresholds, keep: set<Metric>)
    ensures Only(CheckAlerts(s, t), keep)
         == (if Cpu in keep then AlertIfOver(s, t, Cpu) else [])
          + (if Mem in keep then AlertIfOver(s, t, Mem) else [])
          + (if Disk in keep then AlertIfOver(s, t, Disk) else [])
  {
    var cpu, mem, disk := AlertIfOver(s, t, Cpu), AlertIfOver(s, t, Mem), AlertIfOver(s, t, Disk);
    assert CheckAlerts(s, t) == cpu + mem + disk;
    OnlyAppend(cpu + mem, disk, keep);
    OnlyAppend(cpu, mem, keep);
    OnlyOfPart(s, t, Cpu, keep);
    OnlyOfPart(s, t, Mem, keep);
    OnlyOfPart(s, t, Disk, keep);
  }

  /** Filtering one metric's part keeps it exactly when the metric is kept. */
  lemma OnlyOfPart(s: Sample, t: Thresholds, k: Metric, keep: set<Metric>)
    ensures Only(AlertIfOver(s, t, k), keep) == if k in keep then AlertIfOver(s, t, k) else []
  {
    OnlyAtMostOne(AlertIfOver(s, t, k), keep);
  }

  /** Filtering an empty or one-alert list keeps the alert exactly when its metric is kept. */
  lemma OnlyAtMostOne(a: seq<Alert>, keep: set<Metric>)
    requires |a| <= 1
    ensures Only(a, keep) == if |a| == 1 && a[0].metric in keep then a else []
  {
    if |a| == 1 {
      assert Only(a[1..], keep) == [];
    }
  }

  /** Filtering distributes over concatenation. */
  lemma {:induction false} OnlyAppend(a: seq<Alert>, b: seq<Alert>, keep: set<Metric>)
    ensures Only(a + b, keep) == Only(a, keep) + Only(b, keep)
    decreases |a|
  {
    if |a| == 0 {
      assert a + b == b;
    } else {
      var head := if a[0].metric in keep then [a[0]] else [];
      assert (a + b)[0] == a[0];
      assert (a + b)[1..] == a[1..] + b;
      OnlyAppend(a[1..], b, keep);
      assert Only(a + b, keep) == head + (Only(a[1..], keep) + Only(b, keep));
      assert head + (Only(a[1..], keep) + Only(b, keep)) == (head + Only(a[1..], keep)) + Only(b, keep);
    }
  }

  /** The two examples of the default ceilings {cpu 80, mem 80, disk 90}: 85% cpu alerts, exactly 80% does not. */
  lemma DefaultThresholdExamples()
    ensures CheckAlerts(Sample(0.0, 85.0, 50.0, 50.0), DefaultThresholds) == [Alert(Cpu, 85.0)]
    ensures CheckAlerts(Sample(0.0, 80.0, 50.0, 50.0), DefaultThresholds) == []
  {
  }
}
