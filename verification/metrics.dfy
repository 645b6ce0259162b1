/**
 The data the monitor works on: one sample per tick (a timestamp and three
 usage percentages) and the per-metric ceilings used for alerting.

 Percentages are modelled as `real`; the host's floating-point readings are
 abstracted to exact reals throughout this model.
 */
module Metrics {

  /** The three resources the monitor watches, in the order alerts report them. */
  datatype Metric = Cpu | Mem | Disk

  /** Reporting order of a metric: cpu first, then memory, then disk. */
  function Rank(k: Metric): nat {
    match k
    case Cpu => 0
    case Mem => 1
    case Disk => 2
  }

  /** All metrics, in reporting order. */
  const AllMetrics: seq<Metric> := [Cpu, Mem, Disk]

  /** One reading of the host: seconds since the epoch and three usage percentages. */
  datatype Sample = Sample(timestamp: real, cpu: real, mem: real, disk: real)

  /** Percentage ceilings; a reading strictly above its ceiling raises an alert. */
  datatype Thresholds = Thresholds(cpu: real, mem: real, disk: real)

  /** The ceilings the monitor uses when none are given. */
  const DefaultThresholds: Thresholds := Thresholds(80.0, 80.0, 90.0)

  /** The observed value of metric `k` in sample `s`. */
  function Value(s: Sample, k: Metric): real {
    match k
    case Cpu => s.cpu
    case Mem => s.mem
    case Disk => s.disk
  }

  /** The ceiling for metric `k`. */
  function Ceiling(t: Thresholds, k: Metric): real {
    match k
    case Cpu => t.cpu
    case Mem => t.mem
    case Disk => t.disk
  }

  /** Metric `k` of sample `s` is over its ceiling (strictly). */
  predicate Exceeds(s: Sample, t: Thresholds, k: Metric) {
    Value(s, k) > Ceiling(t, k)
  }
}
