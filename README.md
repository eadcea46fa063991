# Telegram metric-alert system: a Dafny model

The system is a periodic metric-anomaly detector. Its Airflow DAG is
scheduled with the cron string `15 * * * *`, that is once an hour at minute
15, although a comment in the code says every 15 minutes. Each run takes the
last complete 15-minute bucket. For each configured job (a list of
metrics, and either the pseudo-slice `total` or a slice such as `os`) it
builds one ClickHouse query and splits the returned rows into one group per
slice level. For every (group, metric) pair it compares today's bucket with
the same clock time yesterday and a week ago. It writes one row per pair
into the alerts log, and it sends a Telegram alert with a plot when the
deviation is anomalous and no alert for that key went out in the last three
hours.

The model has five modules.

- `Config` (`config.dfy`): the configuration dictionaries, jobs, result rows, log rows, the exceptions as an `Error` datatype, and a `Result` type.
- `Text` (`text.dfy`): `str.join` and the quoting of slice levels.
- `QueryBuilder` (`query_builder.dfy`): `get_select_vars`, `get_from_table_name`, `get_where_expression` and `get_group_by_expression`.
  - The loops that build the select list and the table list are methods (`SelectVars`, `FromTableName`). The step-by-step reassignment of the WHERE clause is the method `WhereExpression`.
  - Each is proved equal to a specification function, and the properties are proved about those functions.
- `Evaluator` (`evaluator.dfy`): `get_metric_alert`, covering:
  - the day-value lookups;
  - count normalisation;
  - the relative deviation;
  - the verdict;
  - the `last_time` suppression lookup, read from the alerts log.
- `Orchestrator` (`orchestrator.dfy`): `get_alert` and the loop of `launch_alert_system`.
  - The class `AlertSystem` holds the alerts log table (`log`) and the alerts sent (`notifications`).
  - Its methods `GetAlert` and `LaunchAlertSystem` run the source's loops, and are proved equal to the functions `JobSpec` and `CycleSpec`. `GetAlert`'s loops are the methods `CheckGroups` (over the groups), `CheckGroup` (over one group's metrics) and `CheckMetric` (one pair).
  - The lemmas are stated over those functions.
  - `StopsAtFirstFailure` says when a run of pairs fails: it completes iff every pair's three day lookups succeed, and otherwise fails with the error of the first pair whose lookups fail, having logged one row for each pair before it.

Outside inputs become parameters, gathered in `Orchestrator.Env`:

| parameter | stands for |
|---|---|
| `db: string -> seq<Row>` | the database, from query text to rows |
| `today` | `date.today()`, as a day number |
| `now` | `pd.Timestamp('now')`, in minutes |
| `render` | printing an instant into SQL text |
| `first` | `list(set(...))[0]`; it must return a member of the set |
| `latest` (argument of `LaunchAlertSystem`) | the newest event time read by `launch_alert_system` |

Instants are whole minutes since the epoch. Metric values are exact positive
reals.

Where the code differs from what the system is described to do, the model
follows the code:

- **Errors end the cycle.** A missing day row, a missing column, an unknown metric or slice, or an empty metric list raises in the code. Nothing catches it, so it ends the job and the rest of the cycle. The model's `Failed` outcome stops both.
- **Example value.** For today's views of 120 against window sums of 270 and 330, the code gives a day-1 difference of 0.25 (`|90/120 - 1|`). See `Evaluator.ViewsExample`.
- **Sliced select list.** For a sliced job, `get_select_vars` emits the slice's `formula as alias` once per metric, not the metric's own item. The model reproduces this. With such rows the day-value lookup finds no metric column. In the model the job then fails with `MissingColumn` when some row is dated today, and with `MissingRow` for today otherwise; the code raises a `KeyError` on the column in both cases.
- **Suppression lookup.** It filters the log's `metric` column by the metric's alias, while the log row stores the metric id. With the shipped configuration every alias equals its id.
- **Plot filter.** It selects on the column named by the slice id, while the group split uses the slice's alias.
- **Metrics from two tables.** The design calls for a configuration error when a job's metrics live in different tables. `get_from_table_name` takes an arbitrary member of `list(set(...))` instead. The model keeps this choice as the parameter `first`.

## Model

| member | source | states |
|---|---|---|
| Text.JoinAppend | Alert_system_for_telegram.py:72-75 | joining a list with one more item appends the separator and that item, as appending-then-joining does |
| Text.JoinEnds | Alert_system_for_telegram.py:75 | a joined non-empty list starts with its first item and ends with its last: no separator dangles at either end |
| Text.Quoted | Alert_system_for_telegram.py:123 | each level becomes one SQL string literal, in order |
| Text.QuotedListIsListOfLiterals | Alert_system_for_telegram.py:123 | the source's `"'" + "', '".join(levels) + "'"` equals the levels quoted one by one and joined with `", "` |
| Text.QuotedListEmpty | Alert_system_for_telegram.py:123 | an empty level list still yields one empty literal `''` |
| QueryBuilder.SlicedItemIgnoresMetric | Alert_system_for_telegram.py:64-69 | for a sliced job the select item is the same whatever the metric, and it fails exactly when the slice is not configured (an unconfigured metric does not raise there) |
| QueryBuilder.SelectItemsSpec | Alert_system_for_telegram.py:59-72 | the item list succeeds iff every metric's item does; it then has one item per metric, in order; a failure is the first failing metric's error |
| QueryBuilder.SelectItemsPrefixErr | Alert_system_for_telegram.py:59-72 | a failure on a prefix of the metric list is the failure of the whole list, so the loop may stop there |
| QueryBuilder.SelectSucceeds | Alert_system_for_telegram.py:53-83 | the select list can be built iff (sliced) the metric list is empty or the slice is configured, or (total) every metric is configured |
| QueryBuilder.SelectExpressionShape | Alert_system_for_telegram.py:53-83 | the select list is `toDate(time) as date, `, then the time and `ts` columns iff all_data, then one `formula as alias` item per metric joined by `,` |
| QueryBuilder.SelectVars | Alert_system_for_telegram.py:53-83 | the loop that appends items returns exactly the specified select list or error |
| QueryBuilder.TableNames | Alert_system_for_telegram.py:87-90 | the table list succeeds iff every metric is configured, and then lists each metric's table in order; otherwise the error names an unconfigured metric of the list |
| QueryBuilder.TableNamesFirstErr | Alert_system_for_telegram.py:87-90 | a failure is the UnknownMetric error of the first unconfigured metric of the list: every metric before it is configured |
| QueryBuilder.TableNamesPrefixErr | Alert_system_for_telegram.py:87-90 | a failure on a prefix of the metrics is the failure of the whole list |
| QueryBuilder.FromTableSpec | Alert_system_for_telegram.py:86-94 | an empty metric list raises; a returned table is the table of some metric of the list; when every metric lives in table T the result is T |
| QueryBuilder.FromTableName | Alert_system_for_telegram.py:86-94 | the loop that collects table names returns exactly the specified table or error |
| QueryBuilder.Day0Window | Alert_system_for_telegram.py:100-102 | the day-0 window starts at the bucket and is exactly one bucket long |
| QueryBuilder.ReferenceWindow | Alert_system_for_telegram.py:103-106 | a reference window is n_time_periods buckets long and starts one bucket before the same clock time `days` days back, so it contains that instant |
| QueryBuilder.WindowsRelated | Alert_system_for_telegram.py:100-106 | the day-7 window is the day-1 window moved back six days, and the three windows do not overlap |
| QueryBuilder.WhereClause | Alert_system_for_telegram.py:97-128 | the WHERE clause can be built iff the slice is `total` or configured; otherwise the error is the unknown slice |
| QueryBuilder.WhereClauseShape | Alert_system_for_telegram.py:113-128 | for `total` the clause is the template, extended by the time clause iff not all_data; for a slice it is that text followed by `and alias in ('l1', 'l2', ...)` with the levels in configured order |
| QueryBuilder.WhereExpression | Alert_system_for_telegram.py:97-128 | the step-by-step reassignment returns exactly the specified clause or error |
| QueryBuilder.GroupByExpression | Alert_system_for_telegram.py:131-139 | the GROUP BY list succeeds iff the slice is `total` or configured; for `total` it is the base list; it always starts with the base list, which has the time columns iff all_data; a sliced list ends with `,` + alias |
| QueryBuilder.OsSliceWhereExample | Alert_system_for_telegram.py:118-128 | for the `os` slice with levels iOS and Android the plot query's clause is the template followed by ` and os in ('iOS', 'Android') ` |
| QueryBuilder.OsSliceGroupByExample | Alert_system_for_telegram.py:131-139 | for the `os` slice the aggregate query groups by ` date,os` |
| Evaluator.RelativeDiffIsOneMinusRatio | Alert_system_for_telegram.py:290-298 | for positive values the deviation is `1 - min/max`, lies in [0, 1), and is 0 iff the values are equal |
| Evaluator.RelativeDiffSymmetric | Alert_system_for_telegram.py:290-298 | swapping the compared values leaves the deviation unchanged |
| Evaluator.Normalised | Alert_system_for_telegram.py:286-288 | a count metric's reference value is divided by n_time_periods, any other metric's is kept; positive stays positive |
| Evaluator.Evaluate | Alert_system_for_telegram.py:274-328 | the verdict is 0 or 1; the recorded day-0 value is the raw one and the reference values are the normalised ones |
| Evaluator.VerdictCharacterised | Alert_system_for_telegram.py:290-328 | both differences are `1 - min/max`, and the verdict is 1 iff no alert is within the cooldown, today's value is strictly outside both references on the same side, and both differences reach the threshold |
| Evaluator.BetweenNeverAlerts | Alert_system_for_telegram.py:317-318 | a day-0 value inclusively between the two references never alerts |
| Evaluator.CooldownSuppresses | Alert_system_for_telegram.py:314-315 | a prior alert after the epoch and less than three hours before now suppresses the verdict |
| Evaluator.AlertMeansLargeChange | Alert_system_for_telegram.py:317-326 | an alert means both references are at most (1 - threshold) times today's value, or today's value is at most (1 - threshold) times both |
| Evaluator.RatioBound | Alert_system_for_telegram.py:323 | a `1 - lo/hi` of at least the threshold bounds lo by (1 - threshold) * hi |
| Evaluator.NormalisationExample | Alert_system_for_telegram.py:286-298 | views of 100 against window sums of 300 give a day-1 difference of 0 |
| Evaluator.ViewsExample | Alert_system_for_telegram.py:286-328 | views of 120 against window sums 270 and 330 give references 90 and 110, differences 0.25 and 1/12, and no alert |
| Evaluator.OneSidedDeviationExample | Alert_system_for_telegram.py:290-328 | a CTR of 10 against 9 and 1 deviates by 0.9 from last week but does not alert: one reference is not enough |
| Evaluator.FirstValueSpec | Alert_system_for_telegram.py:282-284 | `.iloc[0]` of a day's selection: a found value is the column of the first row of that date; the lookup fails with MissingRow exactly when no row has that date, and otherwise with MissingColumn |
| Evaluator.FirstValuePositive | Alert_system_for_telegram.py:282-284 | a value found among positive rows is positive |
| Evaluator.MetricAlert | Alert_system_for_telegram.py:274-328 | the assessment exists iff the values dated today, today-1 and today-7 all exist, and those values are then positive; a failure is the first missing lookup's error, in that order |
| Evaluator.MetricAlertValues | Alert_system_for_telegram.py:279-284 | a successful assessment is the evaluation of the first values dated today, today-1 and today-7, in that order |
| Evaluator.MetricAlertMeaning | Alert_system_for_telegram.py:274-328 | an assessment records today's value, the normalised values dated today-1 and today-7, the deviations `1 - min/max` of each; it alerts (1, else 0) iff the key is out of its cooldown, today's value is strictly above or below both, and both deviations reach the threshold |
| Evaluator.ThresholdMonotone | Alert_system_for_telegram.py:323 | lowering the threshold never withdraws an alert |
| Evaluator.ThresholdExample | Alert_system_for_telegram.py:274-326 | a CTR of 6 against 10 and 10 alerts at the signature default 0.3 but not at the 0.5 that get_alert passes at line 232 |
| Evaluator.LastAlertTimeSpec | Alert_system_for_telegram.py:307-312 | the latest time of a matching alert row, at least every matching row's time; the epoch when none matches |
| Evaluator.SuppressionFromLog | Alert_system_for_telegram.py:307-315 | a matching alert row after the epoch within three hours of now suppresses; if every matching alert is at least three hours old nothing is suppressed |
| Orchestrator.AlertQuery | Alert_system_for_telegram.py:194-208 | a built query implies the slice is `total` or configured and every metric is configured |
| Orchestrator.AlertQueryModes | Alert_system_for_telegram.py:253-261 | the plot query can be built exactly when the aggregate query can, so the plot branch never raises |
| Orchestrator.AlertQuerySucceeds | Alert_system_for_telegram.py:194-208 | a job's query can be built iff it names at least one metric, all configured, and its slice is `total` or configured |
| Orchestrator.BuildQuery | Alert_system_for_telegram.py:199-208 | fills the query template from the four fragment methods, giving exactly the specified query or error |
| Orchestrator.RowsWhere | Alert_system_for_telegram.py:219 | keeps exactly the rows whose column equals the level |
| Orchestrator.RowsWhereAppend | Alert_system_for_telegram.py:219 | the selection distributes over concatenation, so it keeps the frame's row order |
| Orchestrator.RowsWhereSingle | Alert_system_for_telegram.py:219 | the selection of one row is that row or nothing, so no row is repeated |
| Orchestrator.FirstValueWhere | Alert_system_for_telegram.py:282-284 | within a group selected at line 219, a found value is the metric column of the first row of the whole query result that has the group's level and the date; MissingRow exactly when no row has both |
| Orchestrator.RowsUpTo | Alert_system_for_telegram.py:269 | keeps exactly the rows at or before the bucket |
| Orchestrator.RowsUpToAppend | Alert_system_for_telegram.py:269 | the time filter distributes over concatenation, so it keeps the frame's row order |
| Orchestrator.RowsUpToSingle | Alert_system_for_telegram.py:269 | the time filter of one row is that row or nothing |
| Orchestrator.PlotRows | Alert_system_for_telegram.py:263-269 | a row is plotted iff it comes from the plot query, lies at or before the bucket and, for a slice, belongs to the group |
| Orchestrator.Dedup | Alert_system_for_telegram.py:218-220 | dictionary keys inserted level by level: the same levels, each once |
| Orchestrator.DedupDistinct | Alert_system_for_telegram.py:218-220 | levels configured without repetition are kept in configured order |
| Orchestrator.Groups | Alert_system_for_telegram.py:212-222 | one group per key of data_to_alerts, in order; every grouped row is a returned row; every group's slice name is the job's slice (`total` for the total job) |
| Orchestrator.GroupsSpec | Alert_system_for_telegram.py:212-222 | `total` has one group holding all rows; a slice's group holds exactly the rows whose alias column equals its level; with distinct levels the keys are the configured levels in order |
| Orchestrator.GroupRows | Alert_system_for_telegram.py:218-220 | a sliced group's rows are the selection of its level from the query result |
| Orchestrator.SplitGroups | Alert_system_for_telegram.py:212-222 | the dictionary-filling loop gives exactly the specified groups |
| Orchestrator.GroupPairs | Alert_system_for_telegram.py:229 | one (group, metric) pair per metric, in metric order |
| Orchestrator.Pairs | Alert_system_for_telegram.py:225-229 | every pair is a group with one of the job's metrics |
| Orchestrator.StepShape | Alert_system_for_telegram.py:229-271 | one successful pair appends one log row, the assessment of the pair with threshold 0.5 and the log's last alert time; it sends a notification exactly when that row's verdict is 1, naming its group, metric name, alias and slice and plotting exactly the plot rows of its group up to the bucket |
| Orchestrator.LoggedRowMeaning | Alert_system_for_telegram.py:229-328 | a logged row holds the group's values dated today, today-1 and today-7 (the last two normalised), their deviations, and verdict 1 iff the key had no alert in the last three hours of the log before it, today's value is strictly above or below both, and both deviations reach 0.5 |
| Orchestrator.StepFails | Alert_system_for_telegram.py:229-247 | a pair's step raises exactly when one of its three day lookups finds no value, and then with the error of the first of them that fails; the verdict never makes it raise |
| Orchestrator.StepCooldown | Alert_system_for_telegram.py:229-250 | a pair whose key has an alert row in the log from less than three hours ago (the lookup of lines 307-315) is logged with verdict 0 and sends nothing |
| Orchestrator.RunGrows | Alert_system_for_telegram.py:225-250 | log and notifications only grow, by at most one log row per pair; every pair is logged iff the job completes |
| Orchestrator.RunOutcome | Alert_system_for_telegram.py:225-250 | the loops complete iff every pair's lookups succeed; a failed run has logged exactly the pairs before the first pair whose lookups fail, and fails with that pair's error |
| Orchestrator.RunLogged | Alert_system_for_telegram.py:225-250 | the rows written are one per pair, in order, for a prefix of the pairs, each row being the assessment of its pair against the log as it stood just before |
| Orchestrator.RunRecords | Alert_system_for_telegram.py:225-250 | the same, by position: the log row at position i is the assessment (bucket, slice, group level, metric, metric name, values, deviations, verdict) of pair i against the log before position i |
| Orchestrator.RunNotificationKeys | Alert_system_for_telegram.py:243-271 | the alerts sent are, in order, exactly the logged rows with verdict 1 |
| Orchestrator.RunPlotsUpTo | Alert_system_for_telegram.py:263-271 | every plotted row lies at or before the bucket |
| Orchestrator.PairKeysProduct | Alert_system_for_telegram.py:225-229 | the pairs visited are every group key with every metric, group-major |
| Orchestrator.RunOrder | Alert_system_for_telegram.py:225-250 | a completed run logs exactly the pairs' (group, metric) in order |
| Orchestrator.JobPairKeys | Alert_system_for_telegram.py:212-229 | a job's pairs are its group levels crossed with its metrics, group-major |
| Orchestrator.JobOutcome | Alert_system_for_telegram.py:190-250 | a job whose query cannot be built fails with the query's error and writes nothing; otherwise it completes iff every (group, metric)'s lookups succeed, and a failure comes from the first pair whose lookups fail, after logging every pair before it |
| Orchestrator.JobLogOrder | Alert_system_for_telegram.py:212-250 | a completed job logs one row per (group, metric), groups in data_to_alerts order and metrics in job order, whatever the verdicts |
| Orchestrator.ProductLength | Alert_system_for_telegram.py:225-229 | that product has (group count) * (metric count) entries |
| Orchestrator.CurrentBucket | Alert_system_for_telegram.py:409-410 | the bucket is a multiple of 15 minutes, between 30 (exclusive) and 15 (inclusive) minutes before the newest event |
| Orchestrator.JobGrows | Alert_system_for_telegram.py:190-271 | a job only appends to the log and the notifications |
| Orchestrator.CycleGrows | Alert_system_for_telegram.py:416-417 | a cycle only appends to the log and the notifications |
| Orchestrator.CycleCompletes | Alert_system_for_telegram.py:416-417 | a cycle completes only when every job in it, run from the state the earlier jobs left, completed |
| Orchestrator.CycleFails | Alert_system_for_telegram.py:416-417 | a failed cycle's state and outcome are those of its first failing job, run from the state the completed jobs before it left; no later job runs |
| Orchestrator.AlertSystem.CheckMetric | Alert_system_for_telegram.py:229-271 | one pair: the log and notifications change exactly as the specified step, or not at all when it raises; it completes, appending one log row, iff the pair's three lookups succeed, and otherwise raises the first failing lookup's error |
| Orchestrator.AlertSystem.CheckGroup | Alert_system_for_telegram.py:229-271 | one group's metrics in order: the state and outcome are those of running that group's pairs, stopping at the first exception; it completes iff every metric's lookups succeed, and otherwise fails with the error of the first metric whose lookups fail, having logged one row for each metric before it |
| Orchestrator.AlertSystem.CheckGroups | Alert_system_for_telegram.py:225-271 | the groups in order, each with its metrics: the new log, notifications and outcome are exactly those of running all their pairs, stopping at the first exception |
| Orchestrator.AlertSystem.GetAlert | Alert_system_for_telegram.py:190-271 | the new log, notifications and outcome are exactly those of the specified job; a query that cannot be built raises its error with nothing written; otherwise it completes iff every (group, metric)'s lookups succeed, and fails with the first failing pair's error after logging every pair before it |
| Orchestrator.AlertSystem.LaunchAlertSystem | Alert_system_for_telegram.py:408-417 | resolves the bucket, then the new state and outcome are exactly those of the specified cycle |

## Left out

- Database I/O: `get_df_from_database` and `insert_df_into_database` are pandahouse calls. They are the parameter `db` and appends to `AlertSystem.log`.
- send_alert: the seaborn/matplotlib chart, the image buffer and the Telegram calls are not modelled. An alert is one `Notification` holding its group, metric, slice and plot rows. As written this function does not run: the message has an empty `{}` placeholder and `chat` is undefined.
- Airflow scaffolding: the DAG and task decorators, default arguments, retries and schedule are not modelled. The configuration literal of `get_alert_info` is not modelled either; the metrics and slices dictionaries and the job list are inputs.
- Wall clock: `date.today()` and `pd.Timestamp('now')` are the parameters `today` and `now`.
- Bucket query: the newest event time is the parameter `latest`. Its query text (`max(time)` over the last two days) is not modelled, and `CurrentBucket` models only the arithmetic.
- Floating point: values are exact reals, and every numeric cell returned must be positive. IEEE rounding, pandas dtypes and `fillna(0)` are not modelled.
- Timestamp rendering: printing an instant into SQL is the parameter `render`. Date strings compared as text are day numbers. Sub-minute precision and time zones are not modelled.
- Orchestrator.PlotRows: `pd.to_datetime` on the plot's time column is taken as the identity on minute instants. Rows carry their own label columns, whereas a data frame has one column set: when the plot result lacks the slice column, line 266 raises, but the model keeps no row.
- Evaluator.FirstValue: a data frame missing the metric column raises a `KeyError` at lines 282-284 before any date filtering. The model looks the column up in the first row of that date, so with no such row it reports `MissingRow`, and rows of other dates may lack the column.
- Orchestrator.Groups: when the returned rows lack the slice's alias column, line 219 raises a `KeyError`. The model's rows then match no level, so every group is empty.
- Evaluator.LastAlertTime: the lookup reads `simulator.alerts_log` while rows are inserted into `alerts_log`. The model treats both as the class's `log`. It also compares against the log's `metric` column using the alias, as the code does.
- Orchestrator.GroupsSpec: the keys are stated to be the configured levels only when no level repeats. When levels repeat, `Dedup` keeps each at its first position, as the dictionary does.
- Concurrency: none in the code. Jobs run one after another.
