/**
 * One detection job (get_alert) and one detection cycle (launch_alert_system).
 * The database is the function `db` from query text to rows; inserting into
 * the alerts log appends to `AlertSystem.log`, and sending an alert appends
 * to `AlertSystem.notifications`.
 */
module Orchestrator {
  import opened Config
  import opened Text
  import opened QueryBuilder
  import opened Evaluator

  /** One alert handed to send_alert: its group, metric, slice and plotted rows. */
  datatype Notification = Notification(group: string, metricName: string, metricAlias: string,
                                       sliceName: string, plot: seq<Row>)

  /** One entry of data_to_alerts: its key (the group level), its slice and its rows. */
  datatype Group = Group(key: string, sliceName: string, rows: seq<Row>)

  /**
   * Configuration and the stand-ins for what the source reads from outside:
   * `today` for `date.today()`, `now` for `pd.Timestamp('now')`, `render` for
   * printing an instant into SQL, `first` for the iteration order of a set and
   * `db` for the database.
   */
  datatype Env = Env(ml: MetricsList, slices: SlicesList, template: string,
                     today: int, now: real,
                     render: int -> string, first: set<string> -> string, db: string -> seq<Row>)

  ghost predicate WellFormed(env: Env) {
    PicksMember(env.first) && forall q :: PositiveRows(env.db(q))
  }

  // ---------------------------------------------------------------- the query

  /** The query template of get_alert, filled in. */
  function QueryText(selectVars: string, fromTable: string, whereExpr: string, groupBy: string): string {
    "SELECT " + selectVars + " \n               FROM " + fromTable
    + " \n               WHERE " + whereExpr + " \n               GROUP BY " + groupBy
  }

  /** The query of a job, in aggregate mode or (allData) in time-series mode. */
  function AlertQuery(env: Env, job: Job, t: int, allData: bool): (r: Result<string>)
    ensures r.Ok? ==> job.slice == Total || job.slice in env.slices
    ensures r.Ok? ==> forall m :: m in job.metrics ==> m in env.ml
  {
    var selectVars :- SelectExpression(job.metrics, env.ml, env.slices, job.slice, allData);
    var fromTable :- FromTable(job.metrics, env.ml, env.first);
    var whereExpr :- WhereClause(env.template, env.slices, t, job.slice, allData, env.render);
    // The WHERE clause has already rejected an unknown slice, so GROUP BY succeeds.
    var groupBy := GroupByExpression(job.slice, env.slices, allData).value;
    Ok(QueryText(selectVars, fromTable, whereExpr, groupBy))
  }

  /** The plot query can be built exactly when the aggregate query can. */
  lemma AlertQueryModes(env: Env, job: Job, t: int)
    ensures AlertQuery(env, job, t, false).Ok? <==> AlertQuery(env, job, t, true).Ok?
  {
  }

  /**
   * A job's query can be built exactly when it names at least one metric, every
   * metric is configured and its slice is `total` or configured; otherwise
   * get_alert raises before touching the database.
   */
  lemma AlertQuerySucceeds(env: Env, job: Job, t: int, allData: bool)
    ensures AlertQuery(env, job, t, allData).Ok? <==>
      && job.metrics != []
      && (forall m :: m in job.metrics ==> m in env.ml)
      && (job.slice == Total || job.slice in env.slices)
  {
    SelectSucceeds(job.metrics, env.ml, env.slices, job.slice, allData);
  }

  /** Lines 199-208 of get_alert: the four fragments, then the template. */
  method BuildQuery(env: Env, job: Job, t: int, allData: bool) returns (r: Result<string>)
    ensures r == AlertQuery(env, job, t, allData)
  {
    var selectVars :- SelectVars(job.metrics, env.ml, env.slices, job.slice, allData);
    var fromTable :- FromTableName(job.metrics, env.ml, env.first);
    var whereExpr :- WhereExpression(env.template, env.slices, t, job.slice, allData, env.render);
    var groupBy := GroupByExpression(job.slice, env.slices, allData).value;
    r := Ok(QueryText(selectVars, fromTable, whereExpr, groupBy));
  }

  // ---------------------------------------------------------------- row filters

  /** `df[df[column] == value]`. */
  function RowsWhere(rows: seq<Row>, column: string, value: string): (r: seq<Row>)
    ensures forall x :: x in r <==> x in rows && column in x.labels && x.labels[column] == value
    decreases |rows|
  {
    if rows == [] then []
    else
      var rest := RowsWhere(rows[1..], column, value);
      assert forall x :: x in rows <==> x == rows[0] || x in rows[1..];
      if column in rows[0].labels && rows[0].labels[column] == value then [rows[0]] + rest else rest
  }

  /** A row is kept when its column holds the value. */
  predicate AtLevel(x: Row, column: string, value: string) {
    column in x.labels && x.labels[column] == value
  }

  /** The selection is an order-preserving filter: it distributes over concatenation and keeps a row at most once. */
  lemma {:induction false} RowsWhereAppend(a: seq<Row>, b: seq<Row>, column: string, value: string)
    ensures RowsWhere(a + b, column, value) == RowsWhere(a, column, value) + RowsWhere(b, column, value)
    decreases |a|
  {
    if a == [] {
      assert a + b == b;
    } else {
      assert (a + b)[1..] == a[1..] + b;
      assert (a + b)[0] == a[0];
      RowsWhereAppend(a[1..], b, column, value);
    }
  }

  /** The selection of one row is that row or nothing. */
  lemma RowsWhereSingle(x: Row, column: string, value: string)
    ensures |RowsWhere([], column, value)| == 0
    ensures |RowsWhere([x], column, value)| <= 1
  {
    assert [x][1..] == [];
  }

  /**
   * `.iloc[0]` of a date within a group: the value found is the column of the
   * first row of the whole result that has the group's level and that date,
   * and MissingRow means no row has both.
   */
  lemma {:induction false} FirstValueWhere(rows: seq<Row>, column: string, value: string, date: int, metric: string)
    ensures var r := FirstValue(RowsWhere(rows, column, value), date, metric);
      && (r.Ok? ==> exists i :: && 0 <= i < |rows| && AtLevel(rows[i], column, value) && rows[i].date == date
                              && (forall j :: 0 <= j < i ==> !(AtLevel(rows[j], column, value) && rows[j].date == date))
                              && metric in rows[i].values && r.value == rows[i].values[metric])
      && (r == Err(MissingRow(date)) <==>
            forall i :: 0 <= i < |rows| ==> !(AtLevel(rows[i], column, value) && rows[i].date == date))
    decreases |rows|
  {
    if rows != [] {
      FirstValueWhereStep(rows, column, value, date, metric);
      FirstValueWhere(rows[1..], column, value, date, metric);
      var r := FirstValue(RowsWhere(rows, column, value), date, metric);
      if !(AtLevel(rows[0], column, value) && rows[0].date == date) {
        if r.Ok? {
          var k :| && 0 <= k < |rows[1..]| && AtLevel(rows[1..][k], column, value) && rows[1..][k].date == date
                   && (forall j :: 0 <= j < k ==> !(AtLevel(rows[1..][j], column, value) && rows[1..][j].date == date))
                   && metric in rows[1..][k].values && r.value == rows[1..][k].values[metric];
          assert rows[k + 1] == rows[1..][k];
          forall j | 0 <= j < k + 1 ensures !(AtLevel(rows[j], column, value) && rows[j].date == date) {
            if j > 0 { assert rows[j] == rows[1..][j - 1]; }
          }
        }
        if forall i :: 0 <= i < |rows[1..]| ==> !(AtLevel(rows[1..][i], column, value) && rows[1..][i].date == date) {
          forall i | 0 <= i < |rows| ensures !(AtLevel(rows[i], column, value) && rows[i].date == date) {
            if i > 0 { assert rows[i] == rows[1..][i - 1]; }
          }
        }
      }
    }
  }

  /** The lookup in a group, row by row: the head row decides when it has the level and the date. */
  lemma FirstValueWhereStep(rows: seq<Row>, column: string, value: string, date: int, metric: string)
    requires rows != []
    ensures FirstValue(RowsWhere(rows, column, value), date, metric) ==
      if AtLevel(rows[0], column, value) && rows[0].date == date then
        (if metric in rows[0].values then Ok(rows[0].values[metric]) else Err(MissingColumn(metric)))
      else FirstValue(RowsWhere(rows[1..], column, value), date, metric)
  {
    var rest := RowsWhere(rows[1..], column, value);
    if AtLevel(rows[0], column, value) {
      assert RowsWhere(rows, column, value) == [rows[0]] + rest;
      assert ([rows[0]] + rest)[1..] == rest;
    }
  }

  /** `df[df['time'] <= t]`. */
  function RowsUpTo(rows: seq<Row>, t: int): (r: seq<Row>)
    ensures forall x :: x in r <==> x in rows && x.time <= t
    decreases |rows|
  {
    if rows == [] then []
    else
      var rest := RowsUpTo(rows[1..], t);
      assert forall x :: x in rows <==> x == rows[0] || x in rows[1..];
      if rows[0].time <= t then [rows[0]] + rest else rest
  }

  /** The rows send_alert plots: the group's rows of the time-series query up to the current bucket. */
  function PlotRows(rows: seq<Row>, slice: string, group: string, t: int): (r: seq<Row>)
    ensures forall x :: x in r <==>
      && x in rows && x.time <= t
      && (slice != Total ==> slice in x.labels && x.labels[slice] == group)
  {
    var selected := if slice != Total then RowsWhere(rows, slice, group) else rows;
    RowsUpTo(selected, t)
  }

  /** The time filter is an order-preserving filter as well. */
  lemma {:induction false} RowsUpToAppend(a: seq<Row>, b: seq<Row>, t: int)
    ensures RowsUpTo(a + b, t) == RowsUpTo(a, t) + RowsUpTo(b, t)
    decreases |a|
  {
    if a == [] {
      assert a + b == b;
    } else {
      assert (a + b)[1..] == a[1..] + b;
      assert (a + b)[0] == a[0];
      RowsUpToAppend(a[1..], b, t);
    }
  }

  /** The time filter of one row is that row or nothing. */
  lemma RowsUpToSingle(x: Row, t: int)
    ensures |RowsUpTo([], t)| == 0
    ensures |RowsUpTo([x], t)| <= 1
  {
    assert [x][1..] == [];
  }

  lemma SubRowsPositive(sub: seq<Row>, rows: seq<Row>)
    requires forall x :: x in sub ==> x in rows
    requires PositiveRows(rows)
    ensures PositiveRows(sub)
  {
  }

  // ---------------------------------------------------------------- groups

  /** The keys a dictionary keeps when the levels are inserted in order: each level once, at its first position. */
  function Dedup(levels: seq<string>): (r: seq<string>)
    ensures forall x :: x in r <==> x in levels
    ensures forall i, j :: 0 <= i < j < |r| ==> r[i] != r[j]
    decreases |levels|
  {
    if levels == [] then []
    else
      var init := levels[..|levels| - 1];
      var last := levels[|levels| - 1];
      assert forall x :: x in levels <==> x in init || x == last;
      var d := Dedup(init);
      if last in d then d else d + [last]
  }

  /** Levels configured without repetition are kept as configured. */
  lemma {:induction false} DedupDistinct(levels: seq<string>)
    requires forall i, j :: 0 <= i < j < |levels| ==> levels[i] != levels[j]
    ensures Dedup(levels) == levels
    decreases |levels|
  {
    if levels != [] {
      var init := levels[..|levels| - 1];
      DedupDistinct(init);
      assert levels[|levels| - 1] !in init;
      assert init + [levels[|levels| - 1]] == levels;
    }
  }

  /** The keys of data_to_alerts: `total`, or the slice's distinct levels in order. */
  function GroupKeys(slice: string, slices: SlicesList): seq<string>
    requires slice == Total || slice in slices
  {
    if slice == Total then [Total] else Dedup(slices[slice].groupLevels)
  }

  /** data_to_alerts: one group per key, holding the rows of that level, or all rows for `total`. */
  function Groups(rows: seq<Row>, slice: string, slices: SlicesList): (gs: seq<Group>)
    requires slice == Total || slice in slices
    ensures |gs| == |GroupKeys(slice, slices)|
    ensures forall i :: 0 <= i < |gs| ==> gs[i].key == GroupKeys(slice, slices)[i]
    ensures forall g, x :: g in gs && x in g.rows ==> x in rows
    ensures forall g :: g in gs ==> g.sliceName == slice
  {
    if slice == Total then [Group(Total, Total, rows)]
    else
      var keys := Dedup(slices[slice].groupLevels);
      var alias := slices[slice].alias;
      seq(|keys|, i requires 0 <= i < |keys| => Group(keys[i], slice, RowsWhere(rows, alias, keys[i])))
  }

  /**
   * The groups of a sliced job are its configured levels in order (when none
   * repeats), each holding exactly the rows whose slice column has that level;
   * the total job has the single group `total` holding every row.
   */
  lemma GroupsSpec(rows: seq<Row>, slice: string, slices: SlicesList)
    requires slice == Total || slice in slices
    ensures slice == Total ==> Groups(rows, slice, slices) == [Group(Total, Total, rows)]
    ensures slice != Total ==> forall i, x :: 0 <= i < |Groups(rows, slice, slices)| ==>
      (x in Groups(rows, slice, slices)[i].rows <==>
         x in rows && slices[slice].alias in x.labels
         && x.labels[slices[slice].alias] == Groups(rows, slice, slices)[i].key)

    ensures slice != Total &&
      (forall i, j :: 0 <= i < j < |slices[slice].groupLevels| ==>
         slices[slice].groupLevels[i] != slices[slice].groupLevels[j])
      ==> GroupKeys(slice, slices) == slices[slice].groupLevels
  {
    if slice != Total && forall i, j :: 0 <= i < j < |slices[slice].groupLevels| ==>
         slices[slice].groupLevels[i] != slices[slice].groupLevels[j] {
      DedupDistinct(slices[slice].groupLevels);
    }
  }

  /** A sliced group holds the selection of its level, so it keeps the query's row order. */
  lemma GroupRows(rows: seq<Row>, slice: string, slices: SlicesList, i: int)
    requires slice != Total && slice in slices
    requires 0 <= i < |Groups(rows, slice, slices)|
    ensures Groups(rows, slice, slices)[i].rows == RowsWhere(rows, slices[slice].alias, Groups(rows, slice, slices)[i].key)
  {
  }

  /** Lines 212-222 of get_alert: data_to_alerts is filled level by level. */
  method SplitGroups(rows: seq<Row>, slice: string, slices: SlicesList) returns (gs: seq<Group>)
    requires slice == Total || slice in slices
    ensures gs == Groups(rows, slice, slices)
  {
    if slice != Total {
      var groupLevels := slices[slice].groupLevels;
      var alias := slices[slice].alias;
      var keys: seq<string> := [];
      gs := [];
      for i := 0 to |groupLevels|
        invariant keys == Dedup(groupLevels[..i])
        invariant |gs| == |keys|
        invariant forall k :: 0 <= k < |gs| ==> gs[k] == Group(keys[k], slice, RowsWhere(rows, alias, keys[k]))
      {
        var groupLevel := groupLevels[i];
        var slicedData := RowsWhere(rows, alias, groupLevel);
        assert groupLevels[..i + 1][..i] == groupLevels[..i];
        // Assigning a key the dictionary already holds keeps its position; its value is the same.
        if groupLevel !in keys {
          keys := keys + [groupLevel];
          gs := gs + [Group(groupLevel, slice, slicedData)];
        }
      }
      assert groupLevels[..|groupLevels|] == groupLevels;
    } else {
      gs := [Group(Total, Total, rows)];
    }
  }

  // ---------------------------------------------------------------- the (group, metric) pairs

  function GroupPairs(g: Group, metrics: seq<string>): (ps: seq<(Group, string)>)
    ensures |ps| == |metrics|
    ensures forall j :: 0 <= j < |metrics| ==> ps[j] == (g, metrics[j])
    decreases |metrics|
  {
    if metrics == [] then [] else [(g, metrics[0])] + GroupPairs(g, metrics[1..])
  }

  /** The pairs of one group from metric `mi` on: its pair for metric `mi`, then the rest. */
  lemma GroupPairsFrom(g: Group, metrics: seq<string>, mi: int, later: seq<(Group, string)>)
    requires 0 <= mi < |metrics|
    ensures GroupPairs(g, metrics[mi..]) + later == [(g, metrics[mi])] + (GroupPairs(g, metrics[mi + 1..]) + later)
  {
    assert metrics[mi..][1..] == metrics[mi + 1..];
    assert GroupPairs(g, metrics[mi..]) == [(g, metrics[mi])] + GroupPairs(g, metrics[mi + 1..]);
  }

  /** The iteration order of the nested loops: group-major, then metric. */
  function Pairs(gs: seq<Group>, metrics: seq<string>): (ps: seq<(Group, string)>)
    ensures forall p :: p in ps ==> p.0 in gs && p.1 in metrics
    decreases |gs|
  {
    if gs == [] then [] else GroupPairs(gs[0], metrics) + Pairs(gs[1..], metrics)
  }

  // ---------------------------------------------------------------- one job, as a function

  datatype JobState = JobState(log: seq<LogRecord>, notes: seq<Notification>)
  datatype Outcome = Completed | Failed(error: Error)
  datatype JobResult = JobResult(state: JobState, outcome: Outcome)

  ghost predicate RunPre(pairs: seq<(Group, string)>, env: Env) {
    forall p :: p in pairs ==> p.1 in env.ml && PositiveRows(p.0.rows)
  }

  /** The body of the inner loop for one (group, metric): insert a log row, then alert if is_alert is set. */
  function Step(s: JobState, p: (Group, string), env: Env, job: Job, t: int, plotData: seq<Row>): Result<JobState>
    requires p.1 in env.ml && PositiveRows(p.0.rows)
  {
    var g := p.0;
    var metric := p.1;
    var md := env.ml[metric];
    var lastTime := LastAlertTime(s.log, job.slice, md.alias, g.key);
    var a :- MetricAlert(g.rows, metric, env.today, lastTime, env.now, AlertThreshold);
    var rec := LogRecord(t, a.day0Value, a.day1Value, a.day7Value, a.day1Diff, a.day7Diff,
                         job.slice, g.key, metric, md.metricName, a.isAlert);
    if a.isAlert == 0 then Ok(JobState(s.log + [rec], s.notes))
    else
      var plot := PlotRows(plotData, job.slice, g.key, t);
      Ok(JobState(s.log + [rec], s.notes + [Notification(g.key, md.metricName, md.alias, g.sliceName, plot)]))
  }

  /**
   * Three-hour cooldown across cycles: a pair whose key already has an alert
   * row in the log, recorded after the epoch and less than three hours before
   * now, is logged with is_alert = 0 and sends nothing. The lookup matches the
   * log's metric column against the metric's alias.
   */
  lemma StepCooldown(s: JobState, p: (Group, string), env: Env, job: Job, t: int, plotData: seq<Row>, i: int)
    requires p.1 in env.ml && PositiveRows(p.0.rows)
    requires 0 <= i < |s.log| && AlertFor(s.log[i], job.slice, env.ml[p.1].alias, p.0.key)
    requires s.log[i].time > 0 && env.now - s.log[i].time as real < CooldownMinutes as real
    ensures var st := Step(s, p, env, job, t, plotData);
      st.Ok? ==> |st.value.log| == |s.log| + 1 && st.value.log[|s.log|].isAlert == 0 && st.value.notes == s.notes
  {
    SuppressionFromLog(s.log, job.slice, env.ml[p.1].alias, p.0.key, env.now);
  }

  /** The three day lookups of get_metric_alert for a pair all find a value. */
  predicate LookupsOk(p: (Group, string), env: Env) {
    && FirstValue(p.0.rows, env.today, p.1).Ok?
    && FirstValue(p.0.rows, env.today - 1, p.1).Ok?
    && FirstValue(p.0.rows, env.today - 7, p.1).Ok?
  }

  /** The error of the first of the three lookups that fails. */
  function LookupError(p: (Group, string), env: Env): Error
    requires !LookupsOk(p, env)
  {
    if FirstValue(p.0.rows, env.today, p.1).Err? then FirstValue(p.0.rows, env.today, p.1).error
    else if FirstValue(p.0.rows, env.today - 1, p.1).Err? then FirstValue(p.0.rows, env.today - 1, p.1).error
    else FirstValue(p.0.rows, env.today - 7, p.1).error
  }

  /**
   * A step fails exactly when one of the pair's three lookups fails, with the
   * first failing lookup's error; the verdict never makes it fail, since the
   * log row is inserted before is_alert is tested.
   */
  lemma StepFails(s: JobState, p: (Group, string), env: Env, job: Job, t: int, plotData: seq<Row>)
    requires p.1 in env.ml && PositiveRows(p.0.rows)
    ensures Step(s, p, env, job, t, plotData).Ok? <==> LookupsOk(p, env)
    ensures !LookupsOk(p, env) ==> Step(s, p, env, job, t, plotData) == Err(LookupError(p, env))
  {
  }

  /**
   * The pairs' loop stops at the first exception: it completes iff every
   * pair's lookups succeed, and otherwise, `n` pairs having been logged,
   * pair n is the first whose lookups fail and its error is the outcome.
   */
  ghost predicate StopsAtFirstFailure(pairs: seq<(Group, string)>, env: Env, n: int, outcome: Outcome) {
    && (outcome.Completed? <==> forall i :: 0 <= i < |pairs| ==> LookupsOk(pairs[i], env))
    && (outcome.Failed? ==>
          && 0 <= n < |pairs|
          && (forall i :: 0 <= i < n ==> LookupsOk(pairs[i], env))
          && !LookupsOk(pairs[n], env)
          && outcome.error == LookupError(pairs[n], env))
  }

  /** The nested loops over the pairs, stopping at the first exception. */
  function Run(s: JobState, pairs: seq<(Group, string)>, env: Env, job: Job, t: int, plotData: seq<Row>): JobResult
    requires RunPre(pairs, env)
    decreases |pairs|
  {
    if pairs == [] then JobResult(s, Completed)
    else
      assert pairs[0] in pairs;
      assert forall p :: p in pairs[1..] ==> p in pairs;
      match Step(s, pairs[0], env, job, t, plotData)
      case Err(e) => JobResult(s, Failed(e))
      case Ok(next) => Run(next, pairs[1..], env, job, t, plotData)
  }

  /** One turn of the loops: a run over p then rest is a step on p, then a run over rest. */
  lemma RunCons(s: JobState, p: (Group, string), rest: seq<(Group, string)>, env: Env, job: Job, t: int,
                plotData: seq<Row>)
    requires RunPre([p] + rest, env)
    ensures p.1 in env.ml && PositiveRows(p.0.rows) && RunPre(rest, env)
    ensures var st := Step(s, p, env, job, t, plotData);
      && (st.Ok? ==> Run(s, [p] + rest, env, job, t, plotData) == Run(st.value, rest, env, job, t, plotData))
      && (st.Err? ==> Run(s, [p] + rest, env, job, t, plotData) == JobResult(s, Failed(st.error)))
  {
    assert p in [p] + rest;
    assert ([p] + rest)[0] == p && ([p] + rest)[1..] == rest;
    assert forall q :: q in rest ==> q in [p] + rest;
  }

  /** The (group, metric) pairs of a job whose query can be built. */
  function JobPairs(env: Env, job: Job, t: int): seq<(Group, string)>
    requires AlertQuery(env, job, t, false).Ok?
  {
    var q := AlertQuery(env, job, t, false).value;
    Pairs(Groups(env.db(q), job.slice, env.slices), job.metrics)
  }

  /** The rows of the time-series query, fetched for a plot. */
  function PlotData(env: Env, job: Job, t: int): seq<Row>
    requires AlertQuery(env, job, t, true).Ok?
  {
    env.db(AlertQuery(env, job, t, true).value)
  }

  lemma JobPre(env: Env, job: Job, t: int)
    requires WellFormed(env)
    requires AlertQuery(env, job, t, false).Ok?
    ensures AlertQuery(env, job, t, true).Ok?
    ensures RunPre(JobPairs(env, job, t), env)
  {
    AlertQueryModes(env, job, t);
    var q := AlertQuery(env, job, t, false).value;
    forall p | p in JobPairs(env, job, t) ensures p.1 in env.ml && PositiveRows(p.0.rows) {
      SubRowsPositive(p.0.rows, env.db(q));
    }
  }

  /** get_alert: the query, the groups, then the pairs. */
  function JobSpec(s: JobState, env: Env, job: Job, t: int): JobResult
    requires WellFormed(env)
  {
    match AlertQuery(env, job, t, false)
    case Err(e) => JobResult(s, Failed(e))
    case Ok(_) =>
      JobPre(env, job, t);
      Run(s, JobPairs(env, job, t), env, job, t, PlotData(env, job, t))
  }

  /** A job whose query can be built runs its pairs over the fetched plot data. */
  lemma JobRuns(s: JobState, env: Env, job: Job, t: int)
    requires WellFormed(env)
    requires AlertQuery(env, job, t, false).Ok?
    ensures AlertQuery(env, job, t, true).Ok? && RunPre(JobPairs(env, job, t), env)
    ensures JobSpec(s, env, job, t) == Run(s, JobPairs(env, job, t), env, job, t, PlotData(env, job, t))
  {
    JobPre(env, job, t);
  }

  /**
   * get_alert's outcome, for a state and outcome known to be the job's: it
   * fails with the query's error, having written nothing, when the query
   * cannot be built; otherwise it stops at the first (group, metric) whose
   * lookups fail, having logged every pair before it, and completes iff
   * there is none.
   */
  lemma JobOutcome(log0: seq<LogRecord>, notes0: seq<Notification>, env: Env, job: Job, t: int,
                   log1: seq<LogRecord>, notes1: seq<Notification>, outcome: Outcome)
    requires WellFormed(env)
    requires JobResult(JobState(log1, notes1), outcome) == JobSpec(JobState(log0, notes0), env, job, t)
    ensures AlertQuery(env, job, t, false).Err? ==>
      outcome == Failed(AlertQuery(env, job, t, false).error) && log1 == log0 && notes1 == notes0
    ensures AlertQuery(env, job, t, false).Ok? ==>
      StopsAtFirstFailure(JobPairs(env, job, t), env, |log1| - |log0|, outcome)
  {
    if AlertQuery(env, job, t, false).Ok? {
      JobRuns(JobState(log0, notes0), env, job, t);
      RunEnds(log0, notes0, JobPairs(env, job, t), env, job, t, PlotData(env, job, t), log1, notes1, outcome);
    }
  }

  // ---------------------------------------------------------------- what a job writes

  /**
   * What every log row written for a pair records, `prior` being the log
   * before it: the bucket, the key, and the assessment get_metric_alert makes
   * of the group's rows with threshold 0.5 and the last alert time read from
   * `prior`.
   */
  ghost predicate RecordFor(rec: LogRecord, p: (Group, string), prior: seq<LogRecord>, env: Env, job: Job, t: int) {
    && p.1 in env.ml
    && rec.time == t && rec.slice == job.slice
    && rec.groupLevel == p.0.key && rec.metric == p.1 && rec.metricName == env.ml[p.1].metricName
    && PositiveRows(p.0.rows)
    && MetricAlert(p.0.rows, p.1, env.today, LastAlertTime(prior, job.slice, env.ml[p.1].alias, p.0.key),
                   env.now, AlertThreshold)
       == Ok(Assessment(rec.day0Value, rec.day1Value, rec.day7Value, rec.day1Diff, rec.day7Diff, rec.isAlert))
  }

  /** The bucket, slice, group level, metric and metric name a log row written for a pair carries. */
  ghost predicate RecordKey(rec: LogRecord, p: (Group, string), env: Env, job: Job, t: int) {
    && p.1 in env.ml
    && rec.time == t && rec.slice == job.slice
    && rec.groupLevel == p.0.key && rec.metric == p.1 && rec.metricName == env.ml[p.1].metricName
  }

  /**
   * A logged row holds the group's values dated today, today-1 and today-7
   * (the last two normalised), their deviations, and is_alert = 1 exactly when
   * the key had no alert in the last three hours of `prior`, today's value is
   * strictly above or below both references, and both deviations reach 0.5.
   */
  lemma LoggedRowMeaning(rec: LogRecord, p: (Group, string), prior: seq<LogRecord>, env: Env, job: Job, t: int)
    requires p.1 in env.ml && PositiveRows(p.0.rows)
    requires RecordFor(rec, p, prior, env, job, t)
    ensures var rows, m := p.0.rows, p.1;
      && FirstValue(rows, env.today, m).Ok?
      && FirstValue(rows, env.today - 1, m).Ok?
      && FirstValue(rows, env.today - 7, m).Ok?
      && rec.day0Value == FirstValue(rows, env.today, m).value
      && rec.day1Value == Normalised(m, FirstValue(rows, env.today - 1, m).value)
      && rec.day7Value == Normalised(m, FirstValue(rows, env.today - 7, m).value)
    ensures var d0, d1, d7 := rec.day0Value, rec.day1Value, rec.day7Value;
      && rec.day1Diff == 1.0 - Min(d0, d1) / Max(d0, d1)
      && rec.day7Diff == 1.0 - Min(d0, d7) / Max(d0, d7)
      && (rec.isAlert == 0 || rec.isAlert == 1)
      && (rec.isAlert == 1 <==>
            && !Suppressed(LastAlertTime(prior, job.slice, env.ml[p.1].alias, p.0.key), env.now)
            && ((d0 > d1 && d0 > d7) || (d0 < d1 && d0 < d7))
            && rec.day1Diff >= AlertThreshold && rec.day7Diff >= AlertThreshold)
  {
    var lastTime := LastAlertTime(prior, job.slice, env.ml[p.1].alias, p.0.key);
    var a := Assessment(rec.day0Value, rec.day1Value, rec.day7Value, rec.day1Diff, rec.day7Diff, rec.isAlert);
    MetricAlertMeaning(p.0.rows, p.1, env.today, lastTime, env.now, AlertThreshold, a);
  }

  /**
   * The log and the notifications only grow, by at most one row per pair, and
   * every pair is logged exactly when the job completes.
   */
  lemma {:induction false} RunGrows(s: JobState, pairs: seq<(Group, string)>, env: Env, job: Job, t: int, plotData: seq<Row>)
    requires RunPre(pairs, env)
    ensures var r := Run(s, pairs, env, job, t, plotData);
      && s.log <= r.state.log && s.notes <= r.state.notes
      && |r.state.log| <= |s.log| + |pairs|
      && (r.outcome.Completed? <==> |r.state.log| == |s.log| + |pairs|)
    decreases |pairs|
  {
    if pairs != [] {
      assert pairs[0] in pairs;
      assert forall p :: p in pairs[1..] ==> p in pairs;
      var st := Step(s, pairs[0], env, job, t, plotData);
      if st.Ok? {
        StepKey(s, pairs[0], env, job, t, plotData);
        RunGrows(st.value, pairs[1..], env, job, t, plotData);
      }
    }
  }

  /** A successful step appends one log row, the one RecordFor describes. */
  lemma StepRecord(s: JobState, p: (Group, string), env: Env, job: Job, t: int, plotData: seq<Row>)
    requires p.1 in env.ml && PositiveRows(p.0.rows)
    ensures var st := Step(s, p, env, job, t, plotData);
      st.Ok? ==>
        && |st.value.log| == |s.log| + 1
        && st.value.log == s.log + [st.value.log[|s.log|]]
        && s.notes <= st.value.notes
        && RecordFor(st.value.log[|s.log|], p, s.log, env, job, t)
  {
  }

  /** A run stops at its first pair whose lookups fail, having logged every pair before it. */
  lemma {:induction false} RunOutcome(s: JobState, pairs: seq<(Group, string)>, env: Env, job: Job, t: int, plotData: seq<Row>)
    requires RunPre(pairs, env)
    ensures var r := Run(s, pairs, env, job, t, plotData);
      StopsAtFirstFailure(pairs, env, |r.state.log| - |s.log|, r.outcome)
    decreases |pairs|
  {
    RunGrows(s, pairs, env, job, t, plotData);
    if pairs != [] {
      assert pairs[0] in pairs;
      assert forall p :: p in pairs[1..] ==> p in pairs;
      StepFails(s, pairs[0], env, job, t, plotData);
      var st := Step(s, pairs[0], env, job, t, plotData);
      if st.Ok? {
        var next := st.value;
        StepKey(s, pairs[0], env, job, t, plotData);
        RunOutcome(next, pairs[1..], env, job, t, plotData);
        var r := Run(next, pairs[1..], env, job, t, plotData);
        assert Run(s, pairs, env, job, t, plotData) == r;
        ShiftStops(pairs, env, |r.state.log| - |next.log|, r.outcome);
      }
    }
  }

  /** RunOutcome, for logs, notifications and outcome known to be the run's. */
  lemma RunEnds(log0: seq<LogRecord>, notes0: seq<Notification>, pairs: seq<(Group, string)>, env: Env, job: Job,
                t: int, plotData: seq<Row>, log1: seq<LogRecord>, notes1: seq<Notification>, outcome: Outcome)
    requires RunPre(pairs, env)
    requires JobResult(JobState(log1, notes1), outcome) == Run(JobState(log0, notes0), pairs, env, job, t, plotData)
    ensures StopsAtFirstFailure(pairs, env, |log1| - |log0|, outcome)
  {
    RunOutcome(JobState(log0, notes0), pairs, env, job, t, plotData);
  }

  /** StopsAtFirstFailure of the tail, after a head pair whose lookups succeed, is that of the whole. */
  lemma ShiftStops(pairs: seq<(Group, string)>, env: Env, n: int, outcome: Outcome)
    requires pairs != [] && LookupsOk(pairs[0], env)
    requires StopsAtFirstFailure(pairs[1..], env, n, outcome)
    ensures StopsAtFirstFailure(pairs, env, n + 1, outcome)
  {
    assert forall i :: 0 < i < |pairs| ==> pairs[i] == pairs[1..][i - 1];
    if forall i :: 0 <= i < |pairs[1..]| ==> LookupsOk(pairs[1..][i], env) {
      forall i | 0 <= i < |pairs| ensures LookupsOk(pairs[i], env) {
        if i > 0 { assert pairs[i] == pairs[1..][i - 1]; }
      }
    }
    if outcome.Failed? {
      assert pairs[n + 1] == pairs[1..][n];
      forall i | 0 <= i < n + 1 ensures LookupsOk(pairs[i], env) {
        if i > 0 { assert pairs[i] == pairs[1..][i - 1]; }
      }
    }
  }

  /** The lookups of the group's first n metrics all succeed. */
  ghost predicate LookupsOkUpTo(group: Group, metrics: seq<string>, n: int, env: Env)
    requires n <= |metrics|
  {
    forall j :: 0 <= j < n ==> LookupsOk((group, metrics[j]), env)
  }

  /** One more metric whose lookups succeed extends LookupsOkUpTo by one. */
  lemma LookupsOkNext(group: Group, metrics: seq<string>, n: int, env: Env)
    requires 0 <= n < |metrics|
    requires LookupsOkUpTo(group, metrics, n, env) && LookupsOk((group, metrics[n]), env)
    ensures LookupsOkUpTo(group, metrics, n + 1, env)
  {
  }

  /**
   * The key part of StepRecord alone: a successful step appends one log row
   * carrying the pair's key. Proofs about keys and lengths use it so as not to
   * unfold RecordFor, and with it the whole assessment.
   */
  lemma StepKey(s: JobState, p: (Group, string), env: Env, job: Job, t: int, plotData: seq<Row>)
    requires p.1 in env.ml && PositiveRows(p.0.rows)
    ensures var st := Step(s, p, env, job, t, plotData);
      st.Ok? ==>
        && st.value.log == s.log + [st.value.log[|s.log|]]
        && s.notes <= st.value.notes
        && RecordKey(st.value.log[|s.log|], p, env, job, t)
  {
  }

  /**
   * `added` are the rows written, after the log `prior`, for a prefix of
   * `pairs`: each is RecordFor its pair against the log as it stood just
   * before it.
   */
  ghost predicate Logged(prior: seq<LogRecord>, added: seq<LogRecord>, pairs: seq<(Group, string)>,
                         env: Env, job: Job, t: int)
    decreases |added|
  {
    && |added| <= |pairs|
    && (added != [] ==>
          && RecordFor(added[0], pairs[0], prior, env, job, t)
          && Logged(prior + [added[0]], added[1..], pairs[1..], env, job, t))
  }

  /** Position k of `added` is position k - 1 of its tail, seen after the head is logged. */
  lemma PrefixShift<T, U>(prior: seq<T>, added: seq<T>, pairs: seq<U>, k: int)
    requires 0 <= k < |added| <= |pairs|
    ensures k == 0 ==> prior + added[..k] == prior
    ensures k > 0 ==> && added[1..][k - 1] == added[k] && pairs[1..][k - 1] == pairs[k]
                      && (prior + [added[0]]) + added[1..][..k - 1] == prior + added[..k]
  {
    if k > 0 {
      assert added[..k] == [added[0]] + added[1..][..k - 1];
    } else {
      assert added[..k] == [];
    }
  }

  /** Logged, position by position. */
  lemma {:induction false} LoggedAt(prior: seq<LogRecord>, added: seq<LogRecord>, pairs: seq<(Group, string)>,
                                    env: Env, job: Job, t: int)
    requires Logged(prior, added, pairs, env, job, t)
    ensures |added| <= |pairs|
    ensures forall k :: 0 <= k < |added| ==> RecordFor(added[k], pairs[k], prior + added[..k], env, job, t)
    decreases |added|
  {
    if added != [] {
      LoggedAt(prior + [added[0]], added[1..], pairs[1..], env, job, t);
      forall k | 0 <= k < |added| ensures RecordFor(added[k], pairs[k], prior + added[..k], env, job, t) {
        PrefixShift(prior, added, pairs, k);
      }
    }
  }

  /**
   * The rows a run writes are one per pair, in order, for a prefix of the
   * pairs (RunOutcome says which: those before the first pair whose lookups
   * fail); the row written for a pair is get_metric_alert's assessment of it
   * against the log as it stood just before.
   */
  lemma {:induction false} RunLogged(s: JobState, pairs: seq<(Group, string)>, env: Env, job: Job, t: int, plotData: seq<Row>)
    requires RunPre(pairs, env)
    ensures var r := Run(s, pairs, env, job, t, plotData);
      s.log <= r.state.log && Logged(s.log, r.state.log[|s.log|..], pairs, env, job, t)
    decreases |pairs|
  {
    RunGrows(s, pairs, env, job, t, plotData);
    if pairs != [] {
      assert pairs[0] in pairs;
      assert forall p :: p in pairs[1..] ==> p in pairs;
      var st := Step(s, pairs[0], env, job, t, plotData);
      if st.Ok? {
        var next := st.value;
        StepRecord(s, pairs[0], env, job, t, plotData);
        RunLogged(next, pairs[1..], env, job, t, plotData);
        var r := Run(next, pairs[1..], env, job, t, plotData);
        assert Run(s, pairs, env, job, t, plotData) == r;
        var rec := next.log[|s.log|];
        SuffixAfter(s.log, rec, r.state.log);
        assert r.state.log[|s.log|..][1..] == r.state.log[|next.log|..];
      }
    } else {
      assert s.log[|s.log|..] == [];
    }
  }

  /**
   * `log` extends `prior` by at most one row per pair, and the row at
   * position i is RecordFor its pair against the log before it, log[..i].
   */
  ghost predicate RecordsFrom(prior: seq<LogRecord>, log: seq<LogRecord>, pairs: seq<(Group, string)>,
                              env: Env, job: Job, t: int) {
    && prior <= log
    && |log| <= |prior| + |pairs|
    && forall i :: |prior| <= i < |log| ==> RecordFor(log[i], pairs[i - |prior|], log[..i], env, job, t)
  }

  /** Logged rows of a log that extends `prior`, indexed by their position in the log. */
  lemma LoggedIndexed(prior: seq<LogRecord>, log: seq<LogRecord>, pairs: seq<(Group, string)>,
                      env: Env, job: Job, t: int)
    requires prior <= log && Logged(prior, log[|prior|..], pairs, env, job, t)
    ensures RecordsFrom(prior, log, pairs, env, job, t)
  {
    var added := log[|prior|..];
    LoggedAt(prior, added, pairs, env, job, t);
    forall i | |prior| <= i < |log|
      ensures RecordFor(log[i], pairs[i - |prior|], log[..i], env, job, t)
    {
      SuffixIndex(prior, log, i);
    }
  }

  /** Position i of a log that extends `prior`, seen from its suffix after `prior`. */
  lemma SuffixIndex<T>(prior: seq<T>, log: seq<T>, i: int)
    requires prior <= log && |prior| <= i < |log|
    ensures log[|prior|..][i - |prior|] == log[i]
    ensures prior + log[|prior|..][..i - |prior|] == log[..i]
  {
    assert log[..i] == log[..|prior|] + log[|prior|..i];
    assert log[|prior|..][..i - |prior|] == log[|prior|..i];
  }

  /** RunLogged, position by position: the row at position i is RecordFor its pair against log[..i]. */
  lemma RunRecords(s: JobState, pairs: seq<(Group, string)>, env: Env, job: Job, t: int, plotData: seq<Row>)
    requires RunPre(pairs, env)
    ensures RecordsFrom(s.log, Run(s, pairs, env, job, t, plotData).state.log, pairs, env, job, t)
  {
    RunLogged(s, pairs, env, job, t, plotData);
    LoggedIndexed(s.log, Run(s, pairs, env, job, t, plotData).state.log, pairs, env, job, t);
  }

  /** The (group, metric name) of each notification. */
  function NoteKeys(ns: seq<Notification>): seq<(string, string)>
    decreases |ns|
  {
    if ns == [] then [] else [(ns[0].group, ns[0].metricName)] + NoteKeys(ns[1..])
  }

  /** The (group level, metric name) of each log row that records an alert. */
  function AlertKeys(recs: seq<LogRecord>): seq<(string, string)>
    decreases |recs|
  {
    if recs == [] then []
    else (if recs[0].isAlert == 1 then [(recs[0].groupLevel, recs[0].metricName)] else [])
         + AlertKeys(recs[1..])
  }

  /** What one successful step appends: one log row, and a notification exactly when that row is an alert. */
  lemma StepShape(s: JobState, p: (Group, string), env: Env, job: Job, t: int, plotData: seq<Row>)
    requires p.1 in env.ml && PositiveRows(p.0.rows)
    ensures var st := Step(s, p, env, job, t, plotData);
      st.Ok? ==>
        && |st.value.log| == |s.log| + 1
        && st.value.log == s.log + [st.value.log[|s.log|]]
        && RecordFor(st.value.log[|s.log|], p, s.log, env, job, t)
        && (st.value.log[|s.log|].isAlert == 0 ==> st.value.notes == s.notes)
        && (st.value.log[|s.log|].isAlert == 1 ==>
              st.value.notes == s.notes + [Notification(p.0.key, env.ml[p.1].metricName, env.ml[p.1].alias,
                                                        p.0.sliceName, PlotRows(plotData, job.slice, p.0.key, t))])
  {
    StepRecord(s, p, env, job, t, plotData);
    StepNote(s, p, env, job, t, plotData);
  }

  /**
   * The notification part of StepShape, without RecordFor: what a successful
   * step sends, if anything, given the verdict of the row it appends.
   */
  lemma StepNote(s: JobState, p: (Group, string), env: Env, job: Job, t: int, plotData: seq<Row>)
    requires p.1 in env.ml && PositiveRows(p.0.rows)
    ensures var st := Step(s, p, env, job, t, plotData);
      st.Ok? ==>
        && |st.value.log| == |s.log| + 1
        && RecordKey(st.value.log[|s.log|], p, env, job, t)
        && (st.value.log[|s.log|].isAlert == 0 ==> st.value.notes == s.notes)
        && (st.value.log[|s.log|].isAlert == 1 ==>
              st.value.notes == s.notes + [Notification(p.0.key, env.ml[p.1].metricName, env.ml[p.1].alias,
                                                        p.0.sliceName, PlotRows(plotData, job.slice, p.0.key, t))])
  {
  }

  lemma SuffixAfter<T>(a: seq<T>, x: T, b: seq<T>)
    requires a + [x] <= b
    ensures b[|a|..] == [x] + b[|a| + 1..]
  {
    assert b[|a|..][0] == x;
    assert b[|a|..][1..] == b[|a| + 1..];
  }

  /** A job notifies exactly for the log rows it writes with is_alert = 1, in the same order. */
  lemma {:induction false} RunNotificationKeys(s: JobState, pairs: seq<(Group, string)>, env: Env, job: Job, t: int, plotData: seq<Row>)
    requires RunPre(pairs, env)
    ensures var r := Run(s, pairs, env, job, t, plotData);
      && s.log <= r.state.log && s.notes <= r.state.notes
      && NoteKeys(r.state.notes[|s.notes|..]) == AlertKeys(r.state.log[|s.log|..])
    decreases |pairs|
  {
    RunGrows(s, pairs, env, job, t, plotData);
    if pairs != [] {
      assert pairs[0] in pairs;
      assert forall p :: p in pairs[1..] ==> p in pairs;
      var st := Step(s, pairs[0], env, job, t, plotData);
      if st.Ok? {
        var next := st.value;
        StepNote(s, pairs[0], env, job, t, plotData);
        StepKey(s, pairs[0], env, job, t, plotData);
        RunNotificationKeys(next, pairs[1..], env, job, t, plotData);
        var r := Run(next, pairs[1..], env, job, t, plotData);
        var rec := next.log[|s.log|];
        SuffixAfter(s.log, rec, r.state.log);
        if rec.isAlert == 1 {
          SuffixAfter(s.notes, next.notes[|s.notes|], r.state.notes);
        }
      }
    }
  }

  /** Every plotted row lies at or before the current bucket. */
  lemma {:induction false} RunPlotsUpTo(s: JobState, pairs: seq<(Group, string)>, env: Env, job: Job, t: int, plotData: seq<Row>)
    requires RunPre(pairs, env)
    requires forall n, x :: n in s.notes && x in n.plot ==> x.time <= t
    ensures forall n, x :: n in Run(s, pairs, env, job, t, plotData).state.notes && x in n.plot ==> x.time <= t
    decreases |pairs|
  {
    if pairs != [] {
      assert pairs[0] in pairs;
      assert forall p :: p in pairs[1..] ==> p in pairs;
      var st := Step(s, pairs[0], env, job, t, plotData);
      if st.Ok? {
        StepNote(s, pairs[0], env, job, t, plotData);
        RunPlotsUpTo(st.value, pairs[1..], env, job, t, plotData);
      }
    }
  }

  /** The (group level, metric) of each log row. */
  function LogKeys(recs: seq<LogRecord>): seq<(string, string)> {
    seq(|recs|, k requires 0 <= k < |recs| => (recs[k].groupLevel, recs[k].metric))
  }

  /** The (group key, metric) of each pair. */
  function PairKeys(ps: seq<(Group, string)>): seq<(string, string)> {
    seq(|ps|, k requires 0 <= k < |ps| => (ps[k].0.key, ps[k].1))
  }

  /** The keys of any sequence of groups, in order; JobPairKeys shows they are GroupKeys for a job's groups. */
  function KeysOf(gs: seq<Group>): seq<string> {
    seq(|gs|, i requires 0 <= i < |gs| => gs[i].key)
  }

  /** Every key with every metric, key-major: the order of get_alert's nested loops. */
  function Product(keys: seq<string>, metrics: seq<string>): seq<(string, string)>
    decreases |keys|
  {
    if keys == [] then []
    else KeyRow(keys[0], metrics) + Product(keys[1..], metrics)
  }

  lemma PairKeysAppend(a: seq<(Group, string)>, b: seq<(Group, string)>)
    ensures PairKeys(a + b) == PairKeys(a) + PairKeys(b)
  {
  }

  /** The keys of one group's pairs: its key with every metric. */
  function KeyRow(key: string, metrics: seq<string>): seq<(string, string)> {
    seq(|metrics|, j requires 0 <= j < |metrics| => (key, metrics[j]))
  }

  lemma PairKeysRow(g: Group, metrics: seq<string>)
    ensures PairKeys(GroupPairs(g, metrics)) == KeyRow(g.key, metrics)
  {
  }

  lemma {:induction false} PairKeysProduct(gs: seq<Group>, metrics: seq<string>)
    ensures PairKeys(Pairs(gs, metrics)) == Product(KeysOf(gs), metrics)
    decreases |gs|
  {
    if gs != [] {
      PairKeysProduct(gs[1..], metrics);
      PairKeysAppend(GroupPairs(gs[0], metrics), Pairs(gs[1..], metrics));
      PairKeysRow(gs[0], metrics);
      assert KeysOf(gs)[1..] == KeysOf(gs[1..]);
      assert KeysOf(gs)[0] == gs[0].key;
    }
  }

  /** A completed run logs the (group, metric) of every pair, in order. */
  lemma {:induction false} RunOrder(s: JobState, pairs: seq<(Group, string)>, env: Env, job: Job, t: int, plotData: seq<Row>)
    requires RunPre(pairs, env)
    ensures var r := Run(s, pairs, env, job, t, plotData);
      && s.log <= r.state.log
      && (r.outcome.Completed? ==> LogKeys(r.state.log[|s.log|..]) == PairKeys(pairs))
    decreases |pairs|
  {
    RunGrows(s, pairs, env, job, t, plotData);
    if pairs != [] {
      assert pairs[0] in pairs;
      assert forall p :: p in pairs[1..] ==> p in pairs;
      var st := Step(s, pairs[0], env, job, t, plotData);
      if st.Ok? {
        var next := st.value;
        StepKey(s, pairs[0], env, job, t, plotData);
        RunOrder(next, pairs[1..], env, job, t, plotData);
        var r := Run(next, pairs[1..], env, job, t, plotData);
        assert Run(s, pairs, env, job, t, plotData) == r;
        if r.outcome.Completed? {
          OrderShift(s.log, next.log[|s.log|], r.state.log, pairs);
        }
      }
    }
  }

  /** The keys of a suffix whose first row carries the first pair's key. */
  lemma OrderShift(prior: seq<LogRecord>, rec: LogRecord, log: seq<LogRecord>, pairs: seq<(Group, string)>)
    requires pairs != [] && prior + [rec] <= log
    requires (rec.groupLevel, rec.metric) == (pairs[0].0.key, pairs[0].1)
    requires LogKeys(log[|prior| + 1..]) == PairKeys(pairs[1..])
    ensures LogKeys(log[|prior|..]) == PairKeys(pairs)
  {
    SuffixAfter(prior, rec, log);
    assert log[|prior|..] == [rec] + log[|prior| + 1..];
    LogKeysCons(rec, log[|prior| + 1..]);
    PairKeysAppend([pairs[0]], pairs[1..]);
    assert [pairs[0]] + pairs[1..] == pairs;
    assert PairKeys([pairs[0]]) == [(pairs[0].0.key, pairs[0].1)];
  }

  lemma LogKeysCons(rec: LogRecord, recs: seq<LogRecord>)
    ensures LogKeys([rec] + recs) == [(rec.groupLevel, rec.metric)] + LogKeys(recs)
  {
  }

  /**
   * A completed job writes one log row per (group, metric), group-major: the
   * groups in data_to_alerts order, within each the job's metrics in order.
   * JobOutcome says when a job completes.
   */
  lemma JobLogOrder(s: JobState, env: Env, job: Job, t: int)
    requires WellFormed(env)
    requires AlertQuery(env, job, t, false).Ok?
    ensures var r := JobSpec(s, env, job, t);
      r.outcome.Completed? ==>
        && s.log <= r.state.log
        && LogKeys(r.state.log[|s.log|..]) == Product(GroupKeys(job.slice, env.slices), job.metrics)
  {
    JobRuns(s, env, job, t);
    RunOrder(s, JobPairs(env, job, t), env, job, t, PlotData(env, job, t));
    JobPairKeys(env, job, t);
  }

  /** A job's pairs are its group levels crossed with its metrics, group-major. */
  lemma JobPairKeys(env: Env, job: Job, t: int)
    requires AlertQuery(env, job, t, false).Ok?
    ensures PairKeys(JobPairs(env, job, t)) == Product(GroupKeys(job.slice, env.slices), job.metrics)
  {
    var q := AlertQuery(env, job, t, false).value;
    var gs := Groups(env.db(q), job.slice, env.slices);
    PairKeysProduct(gs, job.metrics);
    assert KeysOf(gs) == GroupKeys(job.slice, env.slices);
  }

  /** The product has one entry per key and metric. */
  lemma {:induction false} ProductLength(keys: seq<string>, metrics: seq<string>)
    ensures |Product(keys, metrics)| == |keys| * |metrics|
    decreases |keys|
  {
    if keys != [] {
      ProductLength(keys[1..], metrics);
      assert |keys| * |metrics| == |metrics| + (|keys| - 1) * |metrics|;
    }
  }

  // ---------------------------------------------------------------- one cycle, as a function

  /**
   * `toStartOfFifteenMinutes(max(time)) - interval 15 minute`: the newest
   * instant floored to a bucket, minus one bucket.
   */
  function CurrentBucket(latest: int): (t: int)
    ensures t % BucketMinutes == 0
    ensures latest - 2 * BucketMinutes < t <= latest - BucketMinutes
  {
    latest - latest % BucketMinutes - BucketMinutes
  }

  /** The loop of launch_alert_system; an exception ends the cycle. */
  function CycleSpec(s: JobState, env: Env, jobs: seq<Job>, t: int): JobResult
    requires WellFormed(env)
    decreases |jobs|
  {
    if jobs == [] then JobResult(s, Completed)
    else
      var r := JobSpec(s, env, jobs[0], t);
      if r.outcome.Failed? then r else CycleSpec(r.state, env, jobs[1..], t)
  }

  /** A job only appends to the log and the notifications. */
  lemma JobGrows(s: JobState, env: Env, job: Job, t: int)
    requires WellFormed(env)
    ensures s.log <= JobSpec(s, env, job, t).state.log && s.notes <= JobSpec(s, env, job, t).state.notes
  {
    if AlertQuery(env, job, t, false).Ok? {
      JobPre(env, job, t);
      RunGrows(s, JobPairs(env, job, t), env, job, t, PlotData(env, job, t));
    }
  }

  /** A cycle only appends to the log and the notifications. */
  lemma {:induction false} CycleGrows(s: JobState, env: Env, jobs: seq<Job>, t: int)
    requires WellFormed(env)
    ensures s.log <= CycleSpec(s, env, jobs, t).state.log && s.notes <= CycleSpec(s, env, jobs, t).state.notes
    decreases |jobs|
  {
    if jobs != [] {
      JobGrows(s, env, jobs[0], t);
      var r0 := JobSpec(s, env, jobs[0], t);
      if r0.outcome.Completed? {
        CycleGrows(r0.state, env, jobs[1..], t);
      }
    }
  }

  /** A cycle completes only when every job in it, run from the state the earlier jobs left, completes. */
  lemma {:induction false} CycleCompletes(s: JobState, env: Env, jobs: seq<Job>, t: int)
    requires WellFormed(env)
    ensures CycleSpec(s, env, jobs, t).outcome.Completed? ==>
      forall k :: 0 <= k < |jobs| ==> JobCompletes(s, env, jobs, t, k)
    decreases |jobs|
  {
    if jobs != [] && CycleSpec(s, env, jobs, t).outcome.Completed? {
      var r0 := JobSpec(s, env, jobs[0], t);
      assert r0.outcome.Completed?;
      assert CycleSpec(s, env, jobs, t) == CycleSpec(r0.state, env, jobs[1..], t);
      CycleCompletes(r0.state, env, jobs[1..], t);
      forall k | 0 <= k < |jobs| ensures JobCompletes(s, env, jobs, t, k) {
        if k > 0 {
          assert JobCompletes(r0.state, env, jobs[1..], t, k - 1);
          assert StateBefore(s, env, jobs, t, k) == StateBefore(r0.state, env, jobs[1..], t, k - 1);
          assert jobs[1..][k - 1] == jobs[k];
        }
      }
    }
  }

  /**
   * An exception ends the cycle: a failed cycle's state and outcome are those
   * of its first failing job, run from the state the completed jobs before it
   * left, and no later job runs.
   */
  lemma {:induction false} CycleFails(s: JobState, env: Env, jobs: seq<Job>, t: int)
    requires WellFormed(env)
    ensures CycleSpec(s, env, jobs, t).outcome.Failed? ==>
      exists k :: && 0 <= k < |jobs|
                  && (forall j :: 0 <= j < k ==> JobCompletes(s, env, jobs, t, j))
                  && CycleSpec(s, env, jobs, t) == JobSpec(StateBefore(s, env, jobs, t, k), env, jobs[k], t)
    decreases |jobs|
  {
    if jobs != [] && CycleSpec(s, env, jobs, t).outcome.Failed? {
      var r0 := JobSpec(s, env, jobs[0], t);
      if r0.outcome.Failed? {
        assert StateBefore(s, env, jobs, t, 0) == s;
      } else {
        assert CycleSpec(s, env, jobs, t) == CycleSpec(r0.state, env, jobs[1..], t);
        CycleFails(r0.state, env, jobs[1..], t);
        var k :| && 0 <= k < |jobs[1..]|
                 && (forall j :: 0 <= j < k ==> JobCompletes(r0.state, env, jobs[1..], t, j))
                 && CycleSpec(r0.state, env, jobs[1..], t)
                    == JobSpec(StateBefore(r0.state, env, jobs[1..], t, k), env, jobs[1..][k], t);
        assert StateBefore(s, env, jobs, t, k + 1) == StateBefore(r0.state, env, jobs[1..], t, k);
        assert jobs[1..][k] == jobs[k + 1];
        forall j | 0 <= j < k + 1 ensures JobCompletes(s, env, jobs, t, j) {
          if j > 0 {
            assert JobCompletes(r0.state, env, jobs[1..], t, j - 1);
            assert StateBefore(s, env, jobs, t, j) == StateBefore(r0.state, env, jobs[1..], t, j - 1);
            assert jobs[1..][j - 1] == jobs[j];
          }
        }
      }
    }
  }

  /** The state a cycle reaches before job k, when every earlier job completes. */
  function StateBefore(s: JobState, env: Env, jobs: seq<Job>, t: int, k: nat): JobState
    requires WellFormed(env)
    requires k <= |jobs|
    decreases k
  {
    if k == 0 then s else StateBefore(JobSpec(s, env, jobs[0], t).state, env, jobs[1..], t, k - 1)
  }

  ghost predicate JobCompletes(s: JobState, env: Env, jobs: seq<Job>, t: int, k: nat)
    requires WellFormed(env)
    requires k < |jobs|
  {
    JobSpec(StateBefore(s, env, jobs, t, k), env, jobs[k], t).outcome.Completed?
  }

  // ---------------------------------------------------------------- the imperative system

  /** The alerts log table and the alerts sent to the chat. */
  class AlertSystem {
    var log: seq<LogRecord>
    var notifications: seq<Notification>

    constructor ()
      ensures log == [] && notifications == []
    {
      log := [];
      notifications := [];
    }

    /**
     * The body of get_alert's inner loop for one group and metric: evaluate,
     * insert the log row, and on an alert fetch the plot rows and send.
     */
    method CheckMetric(env: Env, job: Job, t: int, group: Group, metric: string) returns (outcome: Outcome)
      requires metric in env.ml && PositiveRows(group.rows) && AlertQuery(env, job, t, true).Ok?
      modifies this
      ensures var st := Step(JobState(old(log), old(notifications)), (group, metric), env, job, t, PlotData(env, job, t));
        && (outcome.Failed? ==> st == Err(outcome.error) && log == old(log) && notifications == old(notifications))
        && (outcome.Completed? ==> st == Ok(JobState(log, notifications)))
      ensures outcome.Completed? <==> LookupsOk((group, metric), env)
      ensures outcome.Completed? ==> |log| == |old(log)| + 1
      ensures outcome.Failed? ==> outcome.error == LookupError((group, metric), env)
    {
      StepFails(JobState(log, notifications), (group, metric), env, job, t, PlotData(env, job, t));
      StepKey(JobState(log, notifications), (group, metric), env, job, t, PlotData(env, job, t));
      var metricAlias := env.ml[metric].alias;
      var metricName := env.ml[metric].metricName;
      var lastTime := LastAlertTime(log, job.slice, metricAlias, group.key);
      var alertData := MetricAlert(group.rows, metric, env.today, lastTime, env.now, AlertThreshold);
      if alertData.Err? {
        return Failed(alertData.error);
      }
      var a := alertData.value;
      var record := LogRecord(t, a.day0Value, a.day1Value, a.day7Value, a.day1Diff, a.day7Diff,
                              job.slice, group.key, metric, metricName, a.isAlert);
      log := log + [record];
      outcome := Completed;
      if a.isAlert == 0 {
        return;
      }
      var plotQuery := BuildQuery(env, job, t, true);
      var plotDf := env.db(plotQuery.value);
      if job.slice != Total {
        plotDf := RowsWhere(plotDf, job.slice, group.key);
      }
      plotDf := RowsUpTo(plotDf, t);
      notifications := notifications + [Notification(group.key, metricName, metricAlias, group.sliceName, plotDf)];
    }

    /**
     * get_alert's inner loop for one group: its metrics in order, stopping at
     * the first exception; `later` stands for the pairs of the groups after it.
     */
    method CheckGroup(env: Env, job: Job, t: int, group: Group, ghost later: seq<(Group, string)>)
      returns (outcome: Outcome)
      requires AlertQuery(env, job, t, true).Ok?
      requires RunPre(GroupPairs(group, job.metrics) + later, env)
      modifies this
      ensures var before := Run(JobState(old(log), old(notifications)), GroupPairs(group, job.metrics) + later,
                                env, job, t, PlotData(env, job, t));
        && (outcome.Completed? ==> before == Run(JobState(log, notifications), later, env, job, t, PlotData(env, job, t)))
        && (outcome.Failed? ==> before == JobResult(JobState(log, notifications), outcome))
      ensures outcome.Completed? <==> LookupsOkUpTo(group, job.metrics, |job.metrics|, env)
      ensures outcome.Completed? ==> |log| == |old(log)| + |job.metrics|
      ensures outcome.Failed? ==>
        var n := |log| - |old(log)|;
        && 0 <= n < |job.metrics|
        && LookupsOkUpTo(group, job.metrics, n, env)
        && !LookupsOk((group, job.metrics[n]), env)
        && outcome.error == LookupError((group, job.metrics[n]), env)
    {
      ghost var plotData := PlotData(env, job, t);
      ghost var all := GroupPairs(group, job.metrics) + later;
      ghost var s0 := JobState(log, notifications);
      assert job.metrics[0..] == job.metrics;
      for mi := 0 to |job.metrics|
        invariant RunPre(GroupPairs(group, job.metrics[mi..]) + later, env)
        invariant Run(s0, all, env, job, t, plotData)
               == Run(JobState(log, notifications), GroupPairs(group, job.metrics[mi..]) + later, env, job, t, plotData)
        invariant |log| == |old(log)| + mi
        invariant LookupsOkUpTo(group, job.metrics, mi, env)
      {
        var metric := job.metrics[mi];
        GroupPairsFrom(group, job.metrics, mi, later);
        RunCons(JobState(log, notifications), (group, metric), GroupPairs(group, job.metrics[mi + 1..]) + later,
                env, job, t, plotData);
        outcome := CheckMetric(env, job, t, group, metric);
        if outcome.Failed? {
          return;
        }
        LookupsOkNext(group, job.metrics, mi, env);
      }
      assert job.metrics[|job.metrics|..] == [];
      assert GroupPairs(group, []) + later == later;
      outcome := Completed;
    }

    /**
     * get_alert's outer loop: the groups in order, each with its metrics,
     * stopping at the first exception.
     */
    method CheckGroups(env: Env, job: Job, t: int, groups: seq<Group>) returns (outcome: Outcome)
      requires AlertQuery(env, job, t, true).Ok?
      requires RunPre(Pairs(groups, job.metrics), env)
      modifies this
      ensures JobResult(JobState(log, notifications), outcome)
           == Run(JobState(old(log), old(notifications)), Pairs(groups, job.metrics), env, job, t, PlotData(env, job, t))
    {
      ghost var pairs := Pairs(groups, job.metrics);
      ghost var plotData := PlotData(env, job, t);
      ghost var s0 := JobState(log, notifications);
      assert groups[0..] == groups;
      for gi := 0 to |groups|
        invariant forall p :: p in Pairs(groups[gi..], job.metrics) ==> p in pairs
        invariant Run(s0, pairs, env, job, t, plotData)
               == Run(JobState(log, notifications), Pairs(groups[gi..], job.metrics), env, job, t, plotData)
      {
        var group := groups[gi];
        assert groups[gi..][1..] == groups[gi + 1..];
        ghost var later := Pairs(groups[gi + 1..], job.metrics);
        assert Pairs(groups[gi..], job.metrics) == GroupPairs(group, job.metrics) + later;
        outcome := CheckGroup(env, job, t, group, later);
        if outcome.Failed? {
          return;
        }
      }
      assert groups[|groups|..] == [];
      outcome := Completed;
    }

    /** get_alert for one job at bucket t. */
    method GetAlert(env: Env, job: Job, t: int) returns (outcome: Outcome)
      requires WellFormed(env)
      modifies this
      ensures JobResult(JobState(log, notifications), outcome)
           == JobSpec(JobState(old(log), old(notifications)), env, job, t)
      ensures AlertQuery(env, job, t, false).Err? ==>
        outcome == Failed(AlertQuery(env, job, t, false).error) && log == old(log) && notifications == old(notifications)
      ensures AlertQuery(env, job, t, false).Ok? ==>
        StopsAtFirstFailure(JobPairs(env, job, t), env, |log| - |old(log)|, outcome)
    {
      var alertQuery := BuildQuery(env, job, t, false);
      if alertQuery.Err? {
        outcome := Failed(alertQuery.error);
        JobOutcome(old(log), old(notifications), env, job, t, log, notifications, outcome);
        return;
      }
      JobPre(env, job, t);
      var allData := env.db(alertQuery.value);
      var dataToAlerts := SplitGroups(allData, job.slice, env.slices);
      assert JobPairs(env, job, t) == Pairs(dataToAlerts, job.metrics);
      outcome := CheckGroups(env, job, t, dataToAlerts);
      JobRuns(JobState(old(log), old(notifications)), env, job, t);
      assert JobResult(JobState(log, notifications), outcome)
          == JobSpec(JobState(old(log), old(notifications)), env, job, t);
      JobOutcome(old(log), old(notifications), env, job, t, log, notifications, outcome);
    }

    /** launch_alert_system: resolve the bucket, then run every job in order. */
    method LaunchAlertSystem(env: Env, jobs: seq<Job>, latest: int) returns (outcome: Outcome)
      requires WellFormed(env)
      modifies this
      ensures JobResult(JobState(log, notifications), outcome)
           == CycleSpec(JobState(old(log), old(notifications)), env, jobs, CurrentBucket(latest))
    {
      var maxTime := CurrentBucket(latest);
      ghost var s0 := JobState(log, notifications);
      for k := 0 to |jobs|
        invariant CycleSpec(s0, env, jobs, maxTime)
               == CycleSpec(JobState(log, notifications), env, jobs[k..], maxTime)
      {
        assert jobs[k..][1..] == jobs[k + 1..];
        outcome := GetAlert(env, jobs[k], maxTime);
        if outcome.Failed? {
          return;
        }
      }
      assert jobs[|jobs|..] == [];
      outcome := Completed;
    }
  }
}
