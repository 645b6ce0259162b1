# A verified model of the cyberdudebivash-mon-util decision core

The monitor samples a host's cpu, memory and disk usage percentages on a
fixed cadence and appends each sample to an in-memory buffer. It checks
every sample against per-metric ceilings and reports an alert for each metric
strictly over its ceiling. At the end of the run it runs two anomaly
detectors over the buffer's cpu column:

- a statistical detector, which flags the indices whose absolute z-score
  (population standard deviation) exceeds 2;
- a model-residual detector, which fits a one-input linear model to the
  series and flags the indices whose absolute residual exceeds 1.2 times the
  mean residual.

This project models those three decisions and the end-of-run branch, all as
pure functions over exact reals:

| module | file | what it holds |
|---|---|---|
| `Metrics` | metrics.dfy | samples, ceilings, the three metrics and their reporting order |
| `Alerts` | alerts.dfy | threshold alerting (`check_alerts`) |
| `Indices` | indices.dfy | `np.where(mask)[0]`: the ascending positions where a mask holds |
| `Stats` | stats.dfy | sum, mean, the "above a bound" mask, and a Markov-style counting bound |
| `ZScore` | zscore.dfy | the statistical detector (`simple_anomaly_detection`) |
| `Residual` | residual.dfy | the length guard and residual selection of `ai_anomaly_detection` |
| `Monitor` | monitor.dfy | per-tick alerting over the buffer and the end-of-run report |

Floating-point numbers are modelled as Dafny `real`. The z-score test is
stated without a square root: index `i` is an outlier when
`(x_i - mean)^2 > 4 * variance`. `ZScore.ZScoreTestAgrees` proves this is the
test `|x_i - mean| / sigma > 2` for any `sigma >= 0` whose square is the
variance. When sigma is zero, the floating-point code divides 0 by 0, and the
NaN it gets never compares greater than 2. That case is modelled as "never
flagged", and the squared form agrees because `0 > 0` is false.

The trained linear layer is an input to the model, either as
`Residual.Linear(weight, bias)` or, more generally, as any prediction vector
of the series' length. In the source the residuals form an `n x 1` array, so
`np.where(...)[0]` yields its row indices in ascending order. That is
`Indices.Where` applied to a mask over the series.

An alert carries the metric and the observed value, as the alert text in the
source does (cyberdudebivash_mon_util.py:48,50,52).

## Model

| member | source | states |
|---|---|---|
| Alerts.CheckAlerts | cyberdudebivash_mon_util.py:45-53 | at most three alerts, in the order cpu, memory, disk; each alert's observed value is that metric's value in the sample; a metric is alerted exactly when its value is strictly greater than its ceiling, so equality raises nothing |
| Alerts.AlertCount | cyberdudebivash_mon_util.py:47-53 | the number of alerts equals the number of metrics strictly over their ceilings |
| Alerts.AlertPerMetric | cyberdudebivash_mon_util.py:47-52 | restricted to one metric, the alerts are exactly one alert carrying that metric's value when it is over its ceiling, and none otherwise |
| Alerts.AlertsIndependent | cyberdudebivash_mon_util.py:47-53 | changing one metric's value leaves the alerts for the other two metrics unchanged |
| Alerts.OnlyOfCheckAlerts | cyberdudebivash_mon_util.py:46-53 | filtering the alert list to a set of metrics keeps each kept metric's own conditional alert, in cpu, memory, disk order |
| Alerts.DefaultThresholdExamples | cyberdudebivash_mon_util.py:107 | with the default ceilings {cpu 80, mem 80, disk 90}, a sample with 85% cpu gives exactly one cpu alert observing 85, and one with exactly 80% cpu gives none |
| Indices.Where | cyberdudebivash_mon_util.py:59 | the selected positions are strictly increasing and in range, and a position is selected exactly when the mask holds there |
| ZScore.SimpleAnomalies | cyberdudebivash_mon_util.py:55-60 | no anomalies for fewer than two points; otherwise strictly increasing, in-range indices, and index i is included exactly when its squared deviation exceeds four times the population variance |
| ZScore.ZScoreTestAgrees | cyberdudebivash_mon_util.py:58-59 | the squared test flags exactly the indices whose absolute deviation divided by the standard deviation exceeds 2, a zero standard deviation flagging nothing |
| ZScore.ConstantSeriesHasNoAnomalies | cyberdudebivash_mon_util.py:58-59 | a constant series has no anomalies |
| ZScore.AtMostAQuarterAreAnomalies | cyberdudebivash_mon_util.py:58-59 | fewer than a quarter of the points of a non-empty series are flagged (Chebyshev's bound at two standard deviations) |
| ZScore.ShiftInvariant | cyberdudebivash_mon_util.py:58-59 | adding the same constant to every point leaves the flagged indices unchanged |
| ZScore.SpikeExample | cyberdudebivash_mon_util.py:55-60 | nine points at 10 followed by one at 95 flag exactly index 9 |
| Residual.Predictions | cyberdudebivash_mon_util.py:79 | the fitted layer's predictions over the indices 0 .. n-1 form a straight line: one prediction per index, the first equal to the bias, and each the previous one plus the weight |
| Residual.ResidualAnomalies | cyberdudebivash_mon_util.py:80-81 | no anomalies for fewer than two points; otherwise strictly increasing, in-range indices, and index i is included exactly when its absolute residual exceeds 1.2 times the mean absolute residual |
| Residual.AiAnomalies | cyberdudebivash_mon_util.py:62-82 | with the fitted layer w*i + b given, no anomalies for fewer than two points; otherwise index i is flagged exactly when abs(y_i - (w*i + b)) exceeds 1.2 times the mean of those residuals, that is, exactly when the residual selection flags it against the layer's predictions |
| Residual.EqualResidualsHaveNoAnomalies | cyberdudebivash_mon_util.py:80-81 | when every point misses its prediction by the same amount, including by nothing, no index is flagged |
| Residual.ExactFitHasNoAnomalies | cyberdudebivash_mon_util.py:79-81 | a series lying exactly on the fitted line has no anomalies |
| Residual.FewerThanFiveSixthsAreAnomalies | cyberdudebivash_mon_util.py:80-81 | fewer than five sixths of the points of a non-empty series are flagged (Markov's bound at 1.2 times the mean) |
| Monitor.TickAlerts | cyberdudebivash_mon_util.py:126-130 | one alert list per collected sample, each of at most three alerts, in the order cpu, memory, disk, naming exactly the metrics of that sample that are strictly over their ceilings, each alert carrying that metric's value in the sample |
| Monitor.EndOfRun | cyberdudebivash_mon_util.py:147-158 | an empty buffer reports no data; otherwise both detectors run over the cpu column: a one-sample buffer reports no anomalies, the statistical result flags exactly the cpu outliers, and the residual result flags exactly the cpu points whose residual against the supplied layer exceeds 1.2 times the mean residual |
| Monitor.TickAlertsAppend | cyberdudebivash_mon_util.py:126-130 | appending a sample leaves the alerts of earlier ticks unchanged and adds the new sample's alerts |
| Monitor.SpikeRunExample | cyberdudebivash_mon_util.py:147-151 | a ten-sample run with a cpu spike at the last sample reports index 9 as the only statistical anomaly |

## Left out

- Reading the host (`get_system_metrics`, cyberdudebivash_mon_util.py:22-33) and the random simulated fallback (166-172) are foreign calls and randomness. The collected samples are an input sequence.
- `monitor_logs` (35-43) is file I/O with exception handling and has no decision content beyond the I/O.
- The `SimpleNN` layer and its 100 steps of single-precision SGD with random initialisation (14-20, 65-79) are nondeterministic floating-point numerics. The fitted layer, or the prediction vector, is an input.
- `generate_dashboard` (84-105) is matplotlib rendering and file output.
- The sampling loop's wall-clock deadline, `time.sleep`, Ctrl-C handling, pandas DataFrame construction and all printing (107-146, 151, 154) are not modelled. The loop's effect on the buffer is modelled as appending one sample per tick.
- The per-OS default log path selection (174-182) is configuration only.
- The alert text and the number formatting inside it (48, 50, 52) are not modelled; an alert is its metric and observed value.
- IEEE-754 rounding, float32 in the residual detector, and NaN propagation are not modelled, apart from the zero standard deviation case described above.
- Residual.AiAnomalies: does not model that the fitted weight and bias come from the training loop. It holds for whichever layer is supplied.
- Residual.ExactFitHasNoAnomalies: assumes the supplied layer fits the series exactly, which the training loop does not deliver. Plain gradient descent at learning rate 0.01 on the inputs 0 .. n-1 is unstable for series of 19 points or more, because the curvature of the mean squared error grows with n squared. For 19 to about 23 points the weights grow huge but stay finite in float32, the predictions follow a steep wrong line, and the later indices are flagged. From about 24 points, which includes a default run of about 50 samples, the weights overflow to NaN, every comparison at line 81 fails, and nothing is flagged. This follows from the update at lines 72-77; the real-valued layer of the model cannot express it.
