/**
 * The anomaly decision of get_metric_alert for one metric in one group:
 * count-type normalisation, the two relative deviations, the three-hour
 * suppression, the "between" exemption and the dual threshold.
 */
module Evaluator {
  import opened Config

  /** The threshold get_alert passes. */
  const AlertThreshold: real := 0.5
  /** The threshold get_metric_alert falls back to when called without one. */
  const DefaultThreshold: real := 0.3

  function Abs(x: real): real {
    if x < 0.0 then -x else x
  }

  function Min(a: real, b: real): real {
    if a <= b then a else b
  }

  function Max(a: real, b: real): real {
    if a <= b then b else a
  }

  /** The deviation of the reference value `dk` from today's `d0`, as the source computes it. */
  function RelativeDiff(d0: real, dk: real): real
    requires d0 > 0.0 && dk > 0.0
  {
    if d0 <= dk then Abs(d0 / dk - 1.0) else Abs(dk / d0 - 1.0)
  }

  /** The deviation is one minus the ratio of the smaller value to the larger, so it lies in [0, 1). */
  lemma RelativeDiffIsOneMinusRatio(d0: real, dk: real)
    requires d0 > 0.0 && dk > 0.0
    ensures RelativeDiff(d0, dk) == 1.0 - Min(d0, dk) / Max(d0, dk)
    ensures 0.0 <= RelativeDiff(d0, dk) < 1.0
    ensures RelativeDiff(d0, dk) == 0.0 <==> d0 == dk
  {
    var lo, hi := Min(d0, dk), Max(d0, dk);
    assert 0.0 < lo <= hi;
    assert lo / hi <= 1.0 by {
      assert lo <= hi;
      assert lo / hi * hi == lo;
    }
    assert lo / hi > 0.0;
    assert lo / hi == 1.0 ==> lo == hi by {
      assert lo / hi * hi == lo;
    }
  }

  /** Swapping the two compared values leaves the deviation unchanged. */
  lemma RelativeDiffSymmetric(a: real, b: real)
    requires a > 0.0 && b > 0.0
    ensures RelativeDiff(a, b) == RelativeDiff(b, a)
  {
    RelativeDiffIsOneMinusRatio(a, b);
    RelativeDiffIsOneMinusRatio(b, a);
  }

  /** Count-type metrics are compared per bucket: their window sums are divided by the bucket count. */
  function Normalised(metric: string, value: real): (r: real)
    ensures metric in CountMetrics ==> r * NTimePeriods as real == value
    ensures metric !in CountMetrics ==> r == value
    ensures value > 0.0 ==> r > 0.0
  {
    if metric in CountMetrics then value / NTimePeriods as real else value
  }

  /** An alert for this key was sent after the epoch and less than three hours before `now`. */
  predicate Suppressed(lastTime: int, now: real) {
    lastTime > 0 && now - lastTime as real < CooldownMinutes as real
  }

  /** Today's value lies, inclusively, between the two reference values. */
  predicate Between(d0: real, d1: real, d7: real) {
    (d1 <= d0 <= d7) || (d7 <= d0 <= d1)
  }

  /** The fields of the log row that get_metric_alert fills in. */
  datatype Assessment = Assessment(
    day0Value: real, day1Value: real, day7Value: real,
    day1Diff: real, day7Diff: real,
    isAlert: int)

  /** The decision of get_metric_alert on the three looked-up values. */
  function Evaluate(metric: string, raw0: real, raw1: real, raw7: real,
                    lastTime: int, now: real, threshold: real): (a: Assessment)
    requires raw0 > 0.0 && raw1 > 0.0 && raw7 > 0.0
    ensures a.isAlert == 0 || a.isAlert == 1
    ensures a.day0Value == raw0
    ensures a.day1Value == Normalised(metric, raw1) && a.day7Value == Normalised(metric, raw7)
  {
    var d0 := raw0;
    var d1 := Normalised(metric, raw1);
    var d7 := Normalised(metric, raw7);
    var diff7 := RelativeDiff(d0, d7);
    var diff1 := RelativeDiff(d0, d1);
    var isAlert :=
      if Suppressed(lastTime, now) then 0
      else if Between(d0, d1, d7) then 0
      else if diff7 >= threshold && diff1 >= threshold then 1
      else 0;
    Assessment(d0, d1, d7, diff1, diff7, isAlert)
  }

  /**
   * An alert is raised exactly when the key is not in its cooldown, today's
   * (normalised) value lies strictly above both references or strictly below
   * both, and it differs from each by at least the threshold, each difference
   * being one minus the smaller-to-larger ratio.
   */
  lemma {:induction false} VerdictCharacterised(metric: string, raw0: real, raw1: real, raw7: real,
                                               lastTime: int, now: real, threshold: real)
    requires raw0 > 0.0 && raw1 > 0.0 && raw7 > 0.0
    ensures var a := Evaluate(metric, raw0, raw1, raw7, lastTime, now, threshold);
      var d0, d1, d7 := raw0, Normalised(metric, raw1), Normalised(metric, raw7);
      && a.day1Diff == 1.0 - Min(d0, d1) / Max(d0, d1)
      && a.day7Diff == 1.0 - Min(d0, d7) / Max(d0, d7)
      && (a.isAlert == 1 <==>
            && !Suppressed(lastTime, now)
            && ((d0 > d1 && d0 > d7) || (d0 < d1 && d0 < d7))
            && 1.0 - Min(d0, d1) / Max(d0, d1) >= threshold
            && 1.0 - Min(d0, d7) / Max(d0, d7) >= threshold)
  {
    var d1, d7 := Normalised(metric, raw1), Normalised(metric, raw7);
    RelativeDiffIsOneMinusRatio(raw0, d1);
    RelativeDiffIsOneMinusRatio(raw0, d7);
  }

  /** A value between its two references never alerts, whatever the threshold. */
  lemma BetweenNeverAlerts(metric: string, raw0: real, raw1: real, raw7: real,
                           lastTime: int, now: real, threshold: real)
    requires raw0 > 0.0 && raw1 > 0.0 && raw7 > 0.0
    requires Between(raw0, Normalised(metric, raw1), Normalised(metric, raw7))
    ensures Evaluate(metric, raw0, raw1, raw7, lastTime, now, threshold).isAlert == 0
  {
  }

  /** Within three hours of the last alert for the key nothing alerts, whatever the values. */
  lemma CooldownSuppresses(metric: string, raw0: real, raw1: real, raw7: real,
                           lastTime: int, now: real, threshold: real)
    requires raw0 > 0.0 && raw1 > 0.0 && raw7 > 0.0
    requires lastTime > 0 && now - lastTime as real < CooldownMinutes as real
    ensures Evaluate(metric, raw0, raw1, raw7, lastTime, now, threshold).isAlert == 0
  {
  }

  /**
   * An alert means a relative change of at least the threshold against both
   * references, in the same direction: today's value is at least that fraction
   * above both, or below both.
   */
  lemma {:induction false} AlertMeansLargeChange(metric: string, raw0: real, raw1: real, raw7: real,
                                                lastTime: int, now: real, threshold: real)
    requires raw0 > 0.0 && raw1 > 0.0 && raw7 > 0.0
    requires Evaluate(metric, raw0, raw1, raw7, lastTime, now, threshold).isAlert == 1
    ensures var d0, d1, d7 := raw0, Normalised(metric, raw1), Normalised(metric, raw7);
      || (d1 <= (1.0 - threshold) * d0 && d7 <= (1.0 - threshold) * d0)
      || (d0 <= (1.0 - threshold) * d1 && d0 <= (1.0 - threshold) * d7)
  {
    var d0, d1, d7 := raw0, Normalised(metric, raw1), Normalised(metric, raw7);
    VerdictCharacterised(metric, raw0, raw1, raw7, lastTime, now, threshold);
    if d0 > d1 && d0 > d7 {
      RatioBound(d1, d0, threshold);
      RatioBound(d7, d0, threshold);
    } else {
      RatioBound(d0, d1, threshold);
      RatioBound(d0, d7, threshold);
    }
  }

  lemma RatioBound(lo: real, hi: real, threshold: real)
    requires 0.0 < lo <= hi
    requires 1.0 - lo / hi >= threshold
    ensures lo <= (1.0 - threshold) * hi
  {
    var q := lo / hi;
    assert q <= 1.0 - threshold;
    assert lo == q * hi;
    var e := 1.0 - threshold - q;
    assert e >= 0.0;
    assert e * hi >= 0.0;
    assert e * hi == (1.0 - threshold) * hi - q * hi;
  }

  /**
   * A higher threshold alerts less: what alerts at `hi` also alerts at every
   * lower threshold, so get_alert's 0.5 never alerts where get_metric_alert's
   * default of 0.3 would not.
   */
  lemma ThresholdMonotone(metric: string, raw0: real, raw1: real, raw7: real,
                          lastTime: int, now: real, lo: real, hi: real)
    requires raw0 > 0.0 && raw1 > 0.0 && raw7 > 0.0
    requires lo <= hi
    ensures Evaluate(metric, raw0, raw1, raw7, lastTime, now, hi).isAlert == 1 ==>
            Evaluate(metric, raw0, raw1, raw7, lastTime, now, lo).isAlert == 1
  {
  }

  /** A 40% drop against both references alerts at the default threshold but not at get_alert's. */
  lemma ThresholdExample(lastTime: int, now: real)
    requires !Suppressed(lastTime, now)
    ensures Evaluate("ctr", 6.0, 10.0, 10.0, lastTime, now, DefaultThreshold).isAlert == 1
    ensures Evaluate("ctr", 6.0, 10.0, 10.0, lastTime, now, AlertThreshold).isAlert == 0
  {
  }

  /** Normalising a count metric: a window sum of 300 over three buckets compares equal to a bucket of 100. */
  lemma NormalisationExample(lastTime: int, now: real)
    ensures Evaluate("views", 100.0, 300.0, 300.0, lastTime, now, AlertThreshold).day1Diff == 0.0
  {
  }

  /**
   * Views of 120 today against window sums of 270 and 330: the references are
   * 90 and 110, the deviations 0.25 and 1/12, and nothing alerts.
   */
  lemma ViewsExample(lastTime: int, now: real)
    ensures var a := Evaluate("views", 120.0, 270.0, 330.0, lastTime, now, AlertThreshold);
      && a.day1Value == 90.0 && a.day7Value == 110.0
      && a.day1Diff == 0.25 && a.day7Diff == 1.0 / 12.0
      && a.isAlert == 0
  {
  }

  /** One reference far off is not enough: both deviations must reach the threshold. */
  lemma OneSidedDeviationExample(lastTime: int, now: real)
    ensures Evaluate("ctr", 10.0, 9.0, 1.0, lastTime, now, AlertThreshold).day7Diff == 0.9
    ensures Evaluate("ctr", 10.0, 9.0, 1.0, lastTime, now, AlertThreshold).isAlert == 0
  {
  }

  // ---------------------------------------------------------------- data lookup

  /** `alert_df[alert_df['date'] == date][column].iloc[0]`: the column of the first row of that date. */
  function FirstValue(rows: seq<Row>, date: int, column: string): Result<real>
    decreases |rows|
  {
    if rows == [] then Err(MissingRow(date))
    else if rows[0].date == date then
      if column in rows[0].values then Ok(rows[0].values[column]) else Err(MissingColumn(column))
    else FirstValue(rows[1..], date, column)
  }

  /**
   * A found value is the column of the first row of that date; the lookup
   * fails with MissingRow exactly when no row has that date, and otherwise
   * with MissingColumn when that row lacks the column.
   */
  lemma {:induction false} FirstValueSpec(rows: seq<Row>, date: int, column: string)
    ensures var r := FirstValue(rows, date, column);
      && (r.Ok? ==> exists i :: && 0 <= i < |rows| && rows[i].date == date
                                && (forall j :: 0 <= j < i ==> rows[j].date != date)
                                && column in rows[i].values && r.value == rows[i].values[column])
      && (r.Err? ==> r.error == MissingRow(date) || r.error == MissingColumn(column))
      && (r == Err(MissingRow(date)) <==> forall i :: 0 <= i < |rows| ==> rows[i].date != date)
    decreases |rows|
  {
    if rows != [] && rows[0].date != date {
      FirstValueSpec(rows[1..], date, column);
      var r := FirstValue(rows, date, column);
      assert r == FirstValue(rows[1..], date, column);
      if r.Ok? {
        var k :| && 0 <= k < |rows[1..]| && rows[1..][k].date == date
                 && (forall j :: 0 <= j < k ==> rows[1..][j].date != date)
                 && column in rows[1..][k].values && r.value == rows[1..][k].values[column];
        assert rows[k + 1] == rows[1..][k];
        forall j | 0 <= j < k + 1 ensures rows[j].date != date {
          if j > 0 { assert rows[j] == rows[1..][j - 1]; }
        }
      }
      if forall i :: 0 <= i < |rows[1..]| ==> rows[1..][i].date != date {
        forall i | 0 <= i < |rows| ensures rows[i].date != date {
          if i > 0 { assert rows[i] == rows[1..][i - 1]; }
        }
      }
    }
  }

  /** Every value found in positive rows is positive. */
  lemma {:induction false} FirstValuePositive(rows: seq<Row>, date: int, column: string)
    requires PositiveRows(rows)
    ensures FirstValue(rows, date, column).Ok? ==> FirstValue(rows, date, column).value > 0.0
    decreases |rows|
  {
    if rows != [] && rows[0].date != date {
      assert forall x :: x in rows[1..] ==> x in rows;
      FirstValuePositive(rows[1..], date, column);
    }
  }

  /**
   * get_metric_alert: today's, yesterday's and last week's values are looked
   * up in that order (the first missing one is the error), then evaluated.
   * `today` stands for the wall-clock date and `lastTime` for the result of
   * the alerts-log lookup.
   */
  function MetricAlert(rows: seq<Row>, metric: string, today: int, lastTime: int, now: real,
                       threshold: real): (r: Result<Assessment>)
    requires PositiveRows(rows)
    ensures r.Ok? <==> && FirstValue(rows, today, metric).Ok?
                       && FirstValue(rows, today - 1, metric).Ok?
                       && FirstValue(rows, today - 7, metric).Ok?
    ensures r.Ok? ==> && FirstValue(rows, today, metric).value > 0.0
                      && FirstValue(rows, today - 1, metric).value > 0.0
                      && FirstValue(rows, today - 7, metric).value > 0.0
    ensures FirstValue(rows, today, metric).Err? ==> r == Err(FirstValue(rows, today, metric).error)
    ensures FirstValue(rows, today, metric).Ok? && FirstValue(rows, today - 1, metric).Err? ==>
      r == Err(FirstValue(rows, today - 1, metric).error)
    ensures && FirstValue(rows, today, metric).Ok? && FirstValue(rows, today - 1, metric).Ok?
            && FirstValue(rows, today - 7, metric).Err?
            ==> r == Err(FirstValue(rows, today - 7, metric).error)
  {
    var v0 :- FirstValue(rows, today, metric);
    var v1 :- FirstValue(rows, today - 1, metric);
    var v7 :- FirstValue(rows, today - 7, metric);
    FirstValuePositive(rows, today, metric);
    FirstValuePositive(rows, today - 1, metric);
    FirstValuePositive(rows, today - 7, metric);
    Ok(Evaluate(metric, v0, v1, v7, lastTime, now, threshold))
  }

  /**
   * A successful get_metric_alert evaluates the values of the first rows dated
   * today, today-1 and today-7, in that order.
   */
  lemma MetricAlertValues(rows: seq<Row>, metric: string, today: int, lastTime: int, now: real, threshold: real)
    requires PositiveRows(rows)
    ensures var r := MetricAlert(rows, metric, today, lastTime, now, threshold);
      r.Ok? ==>
        && FirstValue(rows, today, metric).Ok?
        && FirstValue(rows, today - 1, metric).Ok?
        && FirstValue(rows, today - 7, metric).Ok?
        && r.value == Evaluate(metric, FirstValue(rows, today, metric).value,
                               FirstValue(rows, today - 1, metric).value,
                               FirstValue(rows, today - 7, metric).value,
                               lastTime, now, threshold)
  {
  }

  /**
   * What a successful get_metric_alert returns: the values dated today,
   * today-1 and today-7 (the last two normalised), one minus the
   * smaller-to-larger ratio of today's value and each reference, and an alert
   * exactly when the key is not in its cooldown, today's value is strictly
   * above or below both references and both deviations reach the threshold.
   */
  lemma {:induction false} MetricAlertMeaning(rows: seq<Row>, metric: string, today: int, lastTime: int,
                                             now: real, threshold: real, a: Assessment)
    requires PositiveRows(rows)
    requires MetricAlert(rows, metric, today, lastTime, now, threshold) == Ok(a)
    ensures && FirstValue(rows, today, metric).Ok?
            && FirstValue(rows, today - 1, metric).Ok?
            && FirstValue(rows, today - 7, metric).Ok?
            && a.day0Value == FirstValue(rows, today, metric).value
            && a.day1Value == Normalised(metric, FirstValue(rows, today - 1, metric).value)
            && a.day7Value == Normalised(metric, FirstValue(rows, today - 7, metric).value)
    ensures var d0, d1, d7 := a.day0Value, a.day1Value, a.day7Value;
      && d0 > 0.0 && d1 > 0.0 && d7 > 0.0
      && a.day1Diff == 1.0 - Min(d0, d1) / Max(d0, d1)
      && a.day7Diff == 1.0 - Min(d0, d7) / Max(d0, d7)
      && (a.isAlert == 0 || a.isAlert == 1)
      && (a.isAlert == 1 <==>
            && !Suppressed(lastTime, now)
            && ((d0 > d1 && d0 > d7) || (d0 < d1 && d0 < d7))
            && a.day1Diff >= threshold && a.day7Diff >= threshold)
  {
    var v0, v1, v7 := FirstValue(rows, today, metric).value, FirstValue(rows, today - 1, metric).value,
                      FirstValue(rows, today - 7, metric).value;
    MetricAlertValues(rows, metric, today, lastTime, now, threshold);
    VerdictCharacterised(metric, v0, v1, v7, lastTime, now, threshold);
  }

  // ---------------------------------------------------------------- suppression lookup

  /** A log row recording a sent alert for the key (slice, metric, group level). */
  predicate AlertFor(rec: LogRecord, slice: string, metric: string, group: string) {
    rec.isAlert == 1 && rec.slice == slice && rec.metric == metric && rec.groupLevel == group
  }

  /**
   * `SELECT max(time) ... WHERE is_alert = 1 and slice = ... and metric = ...
   * and group_level = ...`: the latest time of a matching row, or the epoch
   * when there is none.
   */
  function LastAlertTime(log: seq<LogRecord>, slice: string, metric: string, group: string): int
    decreases |log|
  {
    if log == [] then 0
    else
      var m := LastAlertTime(log[..|log| - 1], slice, metric, group);
      var last := log[|log| - 1];
      if !AlertFor(last, slice, metric, group) then m
      else if m < last.time then last.time
      else m
  }

  /**
   * LastAlertTime is the epoch when no row matches; it is at least the time of
   * every matching row, and it is the time of one of them unless that maximum
   * is below the epoch's value.
   */
  lemma {:induction false} LastAlertTimeSpec(log: seq<LogRecord>, slice: string, metric: string, group: string)
    ensures var t := LastAlertTime(log, slice, metric, group);
      && ((forall i :: 0 <= i < |log| ==> !AlertFor(log[i], slice, metric, group)) ==> t == 0)
      && (forall i :: 0 <= i < |log| && AlertFor(log[i], slice, metric, group) ==> log[i].time <= t)
      && (t == 0 || exists i :: 0 <= i < |log| && AlertFor(log[i], slice, metric, group) && log[i].time == t)
    decreases |log|
  {
    if log != [] {
      var init := log[..|log| - 1];
      LastAlertTimeSpec(init, slice, metric, group);
      assert forall i :: 0 <= i < |log| - 1 ==> log[i] == init[i];
    }
  }

  /**
   * Suppression read from the log: a matching alert recorded after the epoch
   * less than three hours before `now` suppresses; with no matching alert, or
   * only ones at least three hours old, nothing is suppressed.
   */
  lemma SuppressionFromLog(log: seq<LogRecord>, slice: string, metric: string, group: string, now: real)
    ensures (exists i :: && 0 <= i < |log| && AlertFor(log[i], slice, metric, group)
                         && log[i].time > 0 && now - log[i].time as real < CooldownMinutes as real)
      ==> Suppressed(LastAlertTime(log, slice, metric, group), now)
    ensures (forall i :: 0 <= i < |log| && AlertFor(log[i], slice, metric, group) ==>
               now - log[i].time as real >= CooldownMinutes as real)
      ==> !Suppressed(LastAlertTime(log, slice, metric, group), now)
  {
    LastAlertTimeSpec(log, slice, metric, group);
  }
}
