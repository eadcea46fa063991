/**
 * The SQL fragments of one job's query: the select list, the source table,
 * the WHERE clause with its three time windows, and the GROUP BY list.
 */
module QueryBuilder {
  import opened Config
  import opened Text

  const DateSelect: string := "toDate(time) as date, "
  const TimeSelect: string :=
    "toStartOfFifteenMinutes(time) as time, \n                     formatDateTime(toStartOfFifteenMinutes(time), '%R') as ts,"

  // ---------------------------------------------------------------- select list

  /**
   * The `formula as alias` item emitted for one metric. For a sliced job it is
   * the slice's own formula and alias, whatever the metric.
   */
  function SelectItem(metric: string, ml: MetricsList, slices: SlicesList, slice: string): Result<string> {
    if slice != Total then
      if slice in slices then Ok(slices[slice].formula + " as " + slices[slice].alias)
      else Err(UnknownSlice(slice))
    else
      if metric in ml then Ok(ml[metric].formula + " as " + ml[metric].alias)
      else Err(UnknownMetric(metric))
  }

  /**
   * In a sliced job the item does not depend on the metric: every metric of
   * the job selects the slice column, and an unconfigured metric does not
   * raise there; only an unknown slice does.
   */
  lemma SlicedItemIgnoresMetric(m1: string, m2: string, ml: MetricsList, slices: SlicesList, slice: string)
    requires slice != Total
    ensures SelectItem(m1, ml, slices, slice) == SelectItem(m2, ml, slices, slice)
    ensures SelectItem(m1, ml, slices, slice).Ok? <==> slice in slices
  {
  }

  /** The items of the metrics in order, or the error of the first one that has none. */
  function SelectItems(metrics: seq<string>, ml: MetricsList, slices: SlicesList, slice: string): Result<seq<string>>
    decreases |metrics|
  {
    if metrics == [] then Ok([])
    else
      var items :- SelectItems(metrics[..|metrics| - 1], ml, slices, slice);
      var item :- SelectItem(metrics[|metrics| - 1], ml, slices, slice);
      Ok(items + [item])
  }

  /**
   * The item list succeeds exactly when every metric has an item, and then
   * holds one item per metric, in order; otherwise it fails with the error of
   * the first metric that has none.
   */
  lemma {:induction false} SelectItemsSpec(metrics: seq<string>, ml: MetricsList, slices: SlicesList, slice: string)
    ensures var r := SelectItems(metrics, ml, slices, slice);
      && (r.Ok? <==> forall i :: 0 <= i < |metrics| ==> SelectItem(metrics[i], ml, slices, slice).Ok?)
      && (r.Ok? ==>
            && |r.value| == |metrics|
            && forall i :: 0 <= i < |metrics| ==> r.value[i] == SelectItem(metrics[i], ml, slices, slice).value)
      && (r.Err? ==>
            exists k :: && 0 <= k < |metrics|
                        && SelectItem(metrics[k], ml, slices, slice) == Err(r.error)
                        && forall i :: 0 <= i < k ==> SelectItem(metrics[i], ml, slices, slice).Ok?)
    decreases |metrics|
  {
    if metrics != [] {
      var n := |metrics|;
      var init := metrics[..n - 1];
      SelectItemsSpec(init, ml, slices, slice);
      assert forall i :: 0 <= i < n - 1 ==> init[i] == metrics[i];
    }
  }

  /** An error in the items of a prefix is the error of the whole list. */
  lemma {:induction false} SelectItemsPrefixErr(metrics: seq<string>, j: nat, ml: MetricsList, slices: SlicesList, slice: string)
    requires j <= |metrics|
    requires SelectItems(metrics[..j], ml, slices, slice).Err?
    ensures SelectItems(metrics, ml, slices, slice) == SelectItems(metrics[..j], ml, slices, slice)
    decreases |metrics| - j
  {
    if j < |metrics| {
      assert metrics[..j + 1][..j] == metrics[..j];
      SelectItemsPrefixErr(metrics, j + 1, ml, slices, slice);
    } else {
      assert metrics[..j] == metrics;
    }
  }

  /** The select list of get_select_vars. */
  function SelectExpression(metrics: seq<string>, ml: MetricsList, slices: SlicesList, slice: string, allData: bool): Result<string>
  {
    var items :- SelectItems(metrics, ml, slices, slice);
    Ok(DateSelect + (if allData then TimeSelect else "") + Join(items, ","))
  }

  /**
   * The select list exists exactly when every metric has an item: in a sliced
   * job when the slice is configured (or there are no metrics), in the total
   * job when every metric is configured.
   */
  lemma SelectSucceeds(metrics: seq<string>, ml: MetricsList, slices: SlicesList, slice: string, allData: bool)
    ensures SelectExpression(metrics, ml, slices, slice, allData).Ok? <==>
      if slice != Total then metrics == [] || slice in slices
      else forall m :: m in metrics ==> m in ml
  {
    SelectItemsSpec(metrics, ml, slices, slice);
    var r := SelectItems(metrics, ml, slices, slice);
    if slice == Total && r.Ok? {
      forall m | m in metrics ensures m in ml {
        var k :| 0 <= k < |metrics| && metrics[k] == m;
        assert SelectItem(metrics[k], ml, slices, slice).Ok?;
      }
    }
    if slice != Total && metrics != [] && r.Ok? {
      assert SelectItem(metrics[0], ml, slices, slice).Ok?;
    }
  }

  /**
   * The select list starts with the date column, carries the bucket and label
   * columns exactly in time-series mode, and then lists one item per metric
   * joined by commas. In a sliced job every item is the slice's column; in the
   * total job each metric's own.
   */
  lemma SelectExpressionShape(metrics: seq<string>, ml: MetricsList, slices: SlicesList, slice: string, allData: bool)
    requires SelectExpression(metrics, ml, slices, slice, allData).Ok?
    ensures slice != Total ==> metrics == [] || slice in slices
    ensures slice == Total ==> forall m :: m in metrics ==> m in ml
    ensures exists items: seq<string> ::
      && |items| == |metrics|
      && SelectExpression(metrics, ml, slices, slice, allData).value
           == DateSelect + (if allData then TimeSelect else "") + Join(items, ",")
      && (forall i :: 0 <= i < |items| ==>
            items[i] == if slice != Total then slices[slice].formula + " as " + slices[slice].alias
                        else ml[metrics[i]].formula + " as " + ml[metrics[i]].alias)
  {
    SelectSucceeds(metrics, ml, slices, slice, allData);
    SelectItemsSpec(metrics, ml, slices, slice);
    var items := SelectItems(metrics, ml, slices, slice).value;
    assert forall i :: 0 <= i < |items| ==>
      items[i] == if slice != Total then slices[slice].formula + " as " + slices[slice].alias
                  else ml[metrics[i]].formula + " as " + ml[metrics[i]].alias;
  }

  /** get_select_vars: the item list is built by appending in a loop, then joined. */
  method SelectVars(metrics: seq<string>, ml: MetricsList, slices: SlicesList, slice: string, allData: bool)
    returns (r: Result<string>)
    ensures r == SelectExpression(metrics, ml, slices, slice, allData)
  {
    var list: seq<string> := [];
    for i := 0 to |metrics|
      invariant SelectItems(metrics[..i], ml, slices, slice) == Ok(list)
    {
      var metric := metrics[i];
      var formula, alias := "", "";
      if slice != Total {
        if slice !in slices {
          assert metrics[..i + 1][..i] == metrics[..i];
          SelectItemsPrefixErr(metrics, i + 1, ml, slices, slice);
          return Err(UnknownSlice(slice));
        }
        formula := slices[slice].formula;
        alias := slices[slice].alias;
      } else {
        if metric !in ml {
          assert metrics[..i + 1][..i] == metrics[..i];
          SelectItemsPrefixErr(metrics, i + 1, ml, slices, slice);
          return Err(UnknownMetric(metric));
        }
        formula := ml[metric].formula;
        alias := ml[metric].alias;
      }
      var expression := formula + " as " + alias;
      assert metrics[..i + 1][..i] == metrics[..i];
      list := list + [expression];
    }
    assert metrics[..|metrics|] == metrics;
    var selectExpression := Join(list, ",");
    if !allData {
      selectExpression := DateSelect + selectExpression;
      assert DateSelect + "" == DateSelect;
    } else {
      selectExpression := DateSelect + TimeSelect + selectExpression;
    }
    r := Ok(selectExpression);
  }

  // ---------------------------------------------------------------- source table

  function TableOf(metric: string, ml: MetricsList): Result<string> {
    if metric in ml then Ok(ml[metric].tableName) else Err(UnknownMetric(metric))
  }

  /** The table names of the metrics in order, or the first unknown metric. */
  function TableNames(metrics: seq<string>, ml: MetricsList): (r: Result<seq<string>>)
    ensures r.Ok? <==> forall m :: m in metrics ==> m in ml
    ensures r.Ok? ==> (|r.value| == |metrics| &&
      forall i :: 0 <= i < |metrics| ==> r.value[i] == ml[metrics[i]].tableName)
    ensures r.Err? ==> r.error.UnknownMetric? && r.error.metric in metrics && r.error.metric !in ml
    decreases |metrics|
  {
    if metrics == [] then Ok([])
    else
      var init := metrics[..|metrics| - 1];
      assert forall m :: m in metrics ==> m in init || m == metrics[|metrics| - 1];
      var names :- TableNames(init, ml);
      var name :- TableOf(metrics[|metrics| - 1], ml);
      Ok(names + [name])
  }

  /** The loop raises on the first unconfigured metric of the list. */
  lemma {:induction false} TableNamesFirstErr(metrics: seq<string>, ml: MetricsList)
    ensures var r := TableNames(metrics, ml);
      r.Err? ==> exists k :: && 0 <= k < |metrics| && r.error == UnknownMetric(metrics[k]) && metrics[k] !in ml
                             && forall i :: 0 <= i < k ==> metrics[i] in ml
    decreases |metrics|
  {
    if metrics != [] {
      var init := metrics[..|metrics| - 1];
      TableNamesFirstErr(init, ml);
      assert forall i :: 0 <= i < |init| ==> init[i] == metrics[i];
      if TableNames(init, ml).Ok? {
        assert forall i :: 0 <= i < |init| ==> init[i] in init;
      }
    }
  }

  lemma {:induction false} TableNamesPrefixErr(metrics: seq<string>, j: nat, ml: MetricsList)
    requires j <= |metrics|
    requires TableNames(metrics[..j], ml).Err?
    ensures TableNames(metrics, ml) == TableNames(metrics[..j], ml)
    decreases |metrics| - j
  {
    if j < |metrics| {
      assert metrics[..j + 1][..j] == metrics[..j];
      TableNamesPrefixErr(metrics, j + 1, ml);
    } else {
      assert metrics[..j] == metrics;
    }
  }

  /** `first` stands for "the first element of a set's iteration order". */
  ghost predicate PicksMember(first: set<string> -> string) {
    forall s: set<string> :: s != {} ==> first(s) in s
  }

  function ElementsOf(names: seq<string>): set<string> {
    set n | n in names
  }

  /** get_from_table_name: `list(set(names))[0]`. */
  function FromTable(metrics: seq<string>, ml: MetricsList, first: set<string> -> string): Result<string>
  {
    var names :- TableNames(metrics, ml);
    if names == [] then Err(EmptyMetricList) else Ok(first(ElementsOf(names)))
  }

  /**
   * The table is one of the metrics' tables; when all metrics live in one table
   * it is that table; an empty metric list has no table.
   */
  lemma FromTableSpec(metrics: seq<string>, ml: MetricsList, first: set<string> -> string, table: string)
    requires PicksMember(first)
    ensures metrics == [] ==> FromTable(metrics, ml, first) == Err(EmptyMetricList)
    ensures FromTable(metrics, ml, first).Ok? ==>
      exists m :: m in metrics && m in ml && ml[m].tableName == FromTable(metrics, ml, first).value
    ensures metrics != [] && (forall m :: m in metrics ==> m in ml && ml[m].tableName == table) ==>
      FromTable(metrics, ml, first) == Ok(table)
  {
    var r := TableNames(metrics, ml);
    if r.Ok? && metrics != [] {
      var names := r.value;
      var s := ElementsOf(names);
      assert names[0] in s;
      var t := first(s);
      assert t in s;
      var k :| 0 <= k < |names| && names[k] == t;
      assert metrics[k] in metrics;
      if forall m :: m in metrics ==> m in ml && ml[m].tableName == table {
        forall n | n in s ensures n == table {
          var j :| 0 <= j < |names| && names[j] == n;
          assert metrics[j] in metrics;
        }
        assert s == {table};
      }
    }
  }

  /** get_from_table_name: the table names are collected in a loop. */
  method FromTableName(metrics: seq<string>, ml: MetricsList, first: set<string> -> string)
    returns (r: Result<string>)
    ensures r == FromTable(metrics, ml, first)
  {
    var tableNameList: seq<string> := [];
    for i := 0 to |metrics|
      invariant TableNames(metrics[..i], ml) == Ok(tableNameList)
    {
      var metric := metrics[i];
      assert metrics[..i + 1][..i] == metrics[..i];
      if metric !in ml {
        TableNamesPrefixErr(metrics, i + 1, ml);
        return Err(UnknownMetric(metric));
      }
      tableNameList := tableNameList + [ml[metric].tableName];
    }
    assert metrics[..|metrics|] == metrics;
    if tableNameList == [] {
      return Err(EmptyMetricList);
    }
    r := Ok(first(set n | n in tableNameList));
  }

  // ---------------------------------------------------------------- time windows

  /** The half-open interval [lo, hi) of minutes. */
  datatype Window = Window(lo: int, hi: int)

  /** The current bucket, [t, t + 15). */
  function Day0Window(t: int): (w: Window)
    ensures w.hi - w.lo == BucketMinutes && w.lo == t
  {
    Window(t, t + BucketMinutes)
  }

  /**
   * The reference window `days` days back: from one bucket before the same
   * clock time to NTimePeriods - 1 buckets after it.
   */
  function ReferenceWindow(t: int, days: int): (w: Window)
    ensures w.hi - w.lo == NTimePeriods * BucketMinutes
    ensures w.lo <= t - days * DayMinutes < w.hi
    ensures w.lo + BucketMinutes == t - days * DayMinutes
  {
    Window(t - BucketMinutes - days * DayMinutes,
           t + (NTimePeriods - 1) * BucketMinutes - days * DayMinutes)
  }

  /** The last-week window is the yesterday window moved back six days, and none of the three overlap. */
  lemma WindowsRelated(t: int)
    ensures ReferenceWindow(t, 7).lo == ReferenceWindow(t, 1).lo - 6 * DayMinutes
    ensures ReferenceWindow(t, 7).hi == ReferenceWindow(t, 1).hi - 6 * DayMinutes
    ensures ReferenceWindow(t, 7).hi <= ReferenceWindow(t, 1).lo
    ensures ReferenceWindow(t, 1).hi <= Day0Window(t).lo
  {
  }

  /** The time clause of get_where_expression, with `render` printing an instant. */
  function TimeClause(render: int -> string, t: int): string {
    var w0 := Day0Window(t);
    var w1 := ReferenceWindow(t, 1);
    var w7 := ReferenceWindow(t, 7);
    " and ((time >= '" + render(w0.lo) + "' and time  < '" + render(w0.hi) + "') \n"
    + "                            or (time >= '" + render(w1.lo) + "' and time < '" + render(w1.hi) + "')\n"
    + "                            or (time >= '" + render(w7.lo) + "' and time < '" + render(w7.hi) + "'))"
  }

  // ---------------------------------------------------------------- WHERE clause

  /** The WHERE clause of get_where_expression. */
  function WhereClause(template: string, slices: SlicesList, t: int, slice: string, allData: bool,
                       render: int -> string): (r: Result<string>)
    ensures r.Ok? <==> slice == Total || slice in slices
    ensures r.Err? ==> r.error == UnknownSlice(slice)
  {
    var filtered := if allData then template else template + TimeClause(render, t);
    if slice == Total then Ok(filtered)
    else if slice !in slices then Err(UnknownSlice(slice))
    else Ok(" " + filtered + " and " + slices[slice].alias + " in ("
            + QuotedList(slices[slice].groupLevels) + ") ")
  }

  /**
   * The total job filters by the template alone (plus the windows unless in
   * time-series mode); a sliced job adds a membership clause on the slice's
   * column listing each configured level as a literal, in order.
   */
  lemma WhereClauseShape(template: string, slices: SlicesList, t: int, slice: string, allData: bool,
                         render: int -> string)
    ensures var filtered := template + (if allData then "" else TimeClause(render, t));
      && (slice == Total ==> WhereClause(template, slices, t, slice, allData, render) == Ok(filtered))
      && (slice != Total && slice in slices && slices[slice].groupLevels != [] ==>
            WhereClause(template, slices, t, slice, allData, render)
              == Ok(" " + filtered + " and " + slices[slice].alias + " in ("
                    + Join(Quoted(slices[slice].groupLevels), ", ") + ") "))
  {
    if slice != Total && slice in slices && slices[slice].groupLevels != [] {
      QuotedListIsListOfLiterals(slices[slice].groupLevels);
    }
    assert template + "" == template;
  }

  /** get_where_expression: the template is extended step by step. */
  method WhereExpression(template: string, slices: SlicesList, t: int, slice: string, allData: bool,
                         render: int -> string) returns (r: Result<string>)
    ensures r == WhereClause(template, slices, t, slice, allData, render)
  {
    var whereTemplate := template;
    if !allData {
      whereTemplate := whereTemplate + TimeClause(render, t);
    }
    if slice == Total {
      r := Ok(whereTemplate);
    } else {
      if slice !in slices {
        return Err(UnknownSlice(slice));
      }
      var groupLevels := "'" + Join(slices[slice].groupLevels, "', '") + "'";
      var alias := slices[slice].alias;
      r := Ok(" " + whereTemplate + " and " + alias + " in (" + groupLevels + ") ");
    }
  }

  // ---------------------------------------------------------------- GROUP BY

  function GroupByBase(allData: bool): string {
    if allData then " date, toStartOfFifteenMinutes(time) as time, ts" else " date"
  }

  /**
   * get_group_by_expression: the total job groups by date (and bucket in
   * time-series mode) only; a sliced job appends its column after a comma.
   */
  function GroupByExpression(slice: string, slices: SlicesList, allData: bool): (r: Result<string>)
    ensures r.Ok? <==> slice == Total || slice in slices
    ensures slice == Total ==> r == Ok(GroupByBase(allData))
    ensures r.Ok? ==> GroupByBase(allData) <= r.value
    ensures slice != Total && r.Ok? ==>
      var suffix := "," + slices[slice].alias;
      |suffix| <= |r.value| && r.value[|r.value| - |suffix|..] == suffix
  {
    if slice != Total then
      if slice in slices then Ok(GroupByBase(allData) + "," + slices[slice].alias)
      else Err(UnknownSlice(slice))
    else Ok(GroupByBase(allData))
  }

  // ---------------------------------------------------------------- examples

  /** With the source's `os` slice the filter lists exactly its two levels. */
  lemma OsSliceWhereExample(template: string, t: int, render: int -> string)
    ensures var slices := map["os" := SliceDef("os", "os", ["iOS", "Android"])];
      WhereClause(template, slices, t, "os", true, render) == Ok(" " + template + " and os in ('iOS', 'Android') ")
  {
    assert ["iOS", "Android"][1..] == ["Android"];
    assert Join(["iOS", "Android"], "', '") == "iOS" + "', '" + "Android";
    assert QuotedList(["iOS", "Android"]) == "'iOS', 'Android'";
    calc {
      " " + template + " and " + "os" + " in (" + QuotedList(["iOS", "Android"]) + ") ";
      " " + template + " and os in ('iOS', 'Android') ";
    }
  }

  /** With the source's `os` slice the aggregate query groups by date and os. */
  lemma OsSliceGroupByExample()
    ensures GroupByExpression("os", map["os" := SliceDef("os", "os", ["iOS", "Android"])], false) == Ok(" date,os")
  {
    assert GroupByBase(false) + "," + "os" == " date,os";
  }
}
