/**
 * Configuration data, rows and records of the metric-anomaly detector.
 *
 * Instants are whole minutes since the Unix epoch, dates are day numbers
 * since the epoch, and metric values are exact reals.
 */
module Config {

  /** Width of one time bucket, in minutes. */
  const BucketMinutes: int := 15
  /** One day, in minutes. */
  const DayMinutes: int := 1440
  /** Number of buckets in the yesterday and last-week reference windows. */
  const NTimePeriods: int := 3
  /** Suppression window after a sent alert: three hours, in minutes. */
  const CooldownMinutes: int := 180
  /** The pseudo-slice meaning "no breakdown". */
  const Total: string := "total"
  /** Metrics whose day_1 and day_7 values are sums over NTimePeriods buckets. */
  const CountMetrics: set<string> := {"users_feed", "users_msg", "likes", "views", "messages"}

  /** One entry of the metrics dictionary. */
  datatype MetricDef = MetricDef(alias: string, formula: string, metricName: string, tableName: string)

  /** One entry of the slices dictionary. */
  datatype SliceDef = SliceDef(alias: string, formula: string, groupLevels: seq<string>)

  type MetricsList = map<string, MetricDef>
  type SlicesList = map<string, SliceDef>

  /** One detection unit: a list of metric ids and a slice id (or Total). */
  datatype Job = Job(metrics: seq<string>, slice: string)

  /** The exceptions the source raises. */
  datatype Error =
    | UnknownMetric(metric: string)   // KeyError on the metrics dictionary
    | UnknownSlice(slice: string)     // KeyError on the slices dictionary
    | EmptyMetricList                 // IndexError on `list(set([]))[0]`
    | MissingRow(date: int)           // IndexError on `.iloc[0]` of an empty selection
    | MissingColumn(column: string)   // KeyError on a missing data-frame column

  datatype Result<T> = Ok(value: T) | Err(error: Error) {
    predicate IsFailure() { Err? }
    function PropagateFailure<U>(): Result<U>
      requires Err?
    {
      Err(error)
    }
    function Extract(): T
      requires Ok?
    {
      value
    }
  }

  /**
   * One row returned by the database: its date, its 15-minute bucket (meaningful
   * for time-series queries), its text columns and its numeric columns.
   */
  datatype Row = Row(date: int, time: int, labels: map<string, string>, values: map<string, real>)

  /** Every numeric cell of every row is positive. */
  ghost predicate PositiveRows(rows: seq<Row>) {
    forall r, c :: r in rows && c in r.values ==> r.values[c] > 0.0
  }

  /** One row of the alerts log table. */
  datatype LogRecord = LogRecord(
    time: int,
    day0Value: real, day1Value: real, day7Value: real,
    day1Diff: real, day7Diff: real,
    slice: string, groupLevel: string,
    metric: string, metricName: string,
    isAlert: int)
}
