/**
 Soundness of the plan check with respect to the executor: after every operation of an
 accepted plan the rows carry exactly the columns the check computed, and no read of a row,
 group or parameter ever misses its key.
 */
module Lineage {
  import opened Values
  import opened ProcessingPlan
  import opened Expressions
  import opened Aggregation
  import opened WindowProofs
  import opened WindowDelivery
  import opened Processor

  /** The failures an accepted plan may still end in; a missing key is not among them. */
  predicate Allowed(e: Failure) { e.DivisionByZero? || e.LabelMismatch? || e.Unhashable? }

  ghost predicate Matches(table: Table, columns: set<ColumnKey>) {
    Conforms(table.rows, columns) && ToSet(table.columns) == columns
  }

  // ----- the names in a metric -----

  /** The metrics of an aggregation as its parameters list them. */
  function Items(op: Operation): seq<Value> {
    if "metrics" in op.parameters && op.parameters["metrics"].List? then op.parameters["metrics"].items else []
  }

  function GroupNames(op: Operation): set<ColumnKey> {
    if IsNameList(op.parameters, "group_by") then ToSet(Names(op.parameters["group_by"].items)) else {}
  }

  predicate HasColumn(m: Value) { m.Dict? && "column" in m.entries }

  predicate TextAt(m: Value, key: string) { m.Dict? && key in m.entries && m.entries[key].Str? }

  /** A text target that is also a group column. */
  predicate OverwritesGroup(op: Operation, m: Value) {
    TextAt(m, "target") && Named(m.entries["target"].text) in GroupNames(op)
  }

  predicate IgnoresTarget(kind: Kind) { kind.Cast? || kind.FillMissing? || kind.Deduplicate? || kind.Sort? }

  /**
   What the check does not look at: a target on an operation that creates no column, a metric
   without a column, an aggregation target that is not a text, and a window metric that overwrites
   its own group.
   */
  predicate Disciplined(rt: Runtime, op: Operation, available: set<ColumnKey>) {
    if IgnoresTarget(op.kind) then HasTarget(op) ==> op.target.value in available
    else if op.kind.Aggregate? then forall m | m in Items(op) :: HasColumn(m) && TextAt(m, "target")
    else if op.kind.WindowAggregate? then forall m | m in Items(op) :: HasColumn(m) && !OverwritesGroup(op, m)
    else true
  }

  predicate PlanDisciplined(rt: Runtime, operations: seq<Operation>, available: set<ColumnKey>)
    decreases |operations|
  {
    operations == [] ||
    (Disciplined(rt, operations[0], available) &&
     match CheckOperation(rt, operations[0], available)
     case Rejected(_) => true
     case Available(next) => PlanDisciplined(rt, operations[1..], next))
  }

  // ----- each operation keeps the column set -----

  lemma {:induction false} CastKeeps(rt: Runtime, row: Row, columns: seq<ColumnKey>, dataType: string)
    requires ToSet(columns) <= row.Keys
    ensures CastRow(rt, row, columns, dataType).Keys == row.Keys
  {
    if columns != [] {
      var n := |columns| - 1;
      assert columns[n] in ToSet(columns);
      assert ToSet(columns[..n]) <= ToSet(columns);
      CastKeeps(rt, row, columns[..n], dataType);
    }
  }

  lemma {:induction false} ColumnPresent(rows: seq<Row>, column: ColumnKey, available: set<ColumnKey>)
    requires Conforms(rows, available) && column in available
    ensures ColumnValues(rows, column).Ok?
  {
    if rows != [] { ColumnPresent(rows[1..], column, available); }
  }

  lemma {:induction false} FillColumnsKeep(
    rt: Runtime, rows: seq<Row>, columns: seq<ColumnKey>, strategy: string, available: set<ColumnKey>)
    requires Conforms(rows, available) && ToSet(columns) <= available
    ensures match FillColumns(rt, rows, columns, strategy)
            case Ok(filled) => Conforms(filled, available)
            case Err(e) => e == Unhashable
    decreases |columns|
  {
    if columns != [] {
      assert columns[0] in ToSet(columns);
      ColumnPresent(rows, columns[0], available);
      var fill := FillValue(rt, rows, columns[0], strategy);
      if fill.Ok? {
        var filled := FillColumn(rows, columns[0], fill.value);
        forall row | row in filled ensures row.Keys == available {
          var i :| 0 <= i < |filled| && filled[i] == row;
          assert rows[i] in rows;
        }
        assert ToSet(columns[1..]) <= ToSet(columns);
        FillColumnsKeep(rt, filled, columns[1..], strategy, available);
      }
    }
  }

  lemma {:induction false} CompleteRowsAreRows(rows: seq<Row>, columns: seq<ColumnKey>)
    ensures forall row | row in CompleteRows(rows, columns) :: row in rows && Complete(row, columns)
  {
    if rows != [] { CompleteRowsAreRows(rows[1..], columns); }
  }

  lemma {:induction false} MarkerRead(rt: Runtime, row: Row, columns: seq<ColumnKey>)
    requires ToSet(columns) <= row.Keys
    ensures Marker(rt, row, columns).Ok?
  {
    if columns != [] {
      assert columns[0] in ToSet(columns) && ToSet(columns[1..]) <= ToSet(columns);
      MarkerRead(rt, row, columns[1..]);
    }
  }

  lemma {:induction false} DedupeKeeps(
    rt: Runtime, rows: seq<Row>, columns: seq<ColumnKey>, seen: set<seq<string>>, available: set<ColumnKey>)
    requires Conforms(rows, available) && ToSet(columns) <= available
    ensures Dedupe(rt, rows, columns, seen).Ok? && Conforms(Dedupe(rt, rows, columns, seen).value, available)
  {
    if rows != [] {
      MarkerRead(rt, rows[0], columns);
      DedupeKeeps(rt, rows[1..], columns, seen + {Marker(rt, rows[0], columns).value}, available);
    }
  }

  lemma InsertedOrLater(rt: Runtime, sorted: seq<Row>, row: Row, columns: seq<ColumnKey>, reverse: bool)
    requires sorted != []
    ensures var r := InsertRow(rt, sorted, row, columns, reverse);
      r == [row] + sorted || r == [sorted[0]] + InsertRow(rt, sorted[1..], row, columns, reverse)
  {}

  lemma HeadKept(head: Row, tail: seq<Row>, rest: seq<Row>, row: Row)
    requires multiset(rest) == multiset(tail) + multiset{row}
    ensures multiset([head] + rest) == multiset([head] + tail) + multiset{row}
  {}

  lemma {:induction false} InsertKeeps(rt: Runtime, sorted: seq<Row>, row: Row, columns: seq<ColumnKey>, reverse: bool)
    ensures multiset(InsertRow(rt, sorted, row, columns, reverse)) == multiset(sorted) + multiset{row}
    decreases |sorted|
  {
    if sorted != [] {
      InsertKeeps(rt, sorted[1..], row, columns, reverse);
      InsertedOrLater(rt, sorted, row, columns, reverse);
      HeadKept(sorted[0], sorted[1..], InsertRow(rt, sorted[1..], row, columns, reverse), row);
      assert sorted == [sorted[0]] + sorted[1..];
    }
  }

  lemma {:induction false} SortKeeps(rt: Runtime, rows: seq<Row>, columns: seq<ColumnKey>, reverse: bool)
    ensures multiset(SortRows(rt, rows, columns, reverse)) == multiset(rows)
  {
    if rows != [] {
      SortKeeps(rt, rows[..|rows| - 1], columns, reverse);
      InsertKeeps(rt, SortRows(rt, rows[..|rows| - 1], columns, reverse), rows[|rows| - 1], columns, reverse);
      assert rows == rows[..|rows| - 1] + [rows[|rows| - 1]];
    }
  }

  lemma SubsetConforms(part: seq<Row>, rows: seq<Row>, available: set<ColumnKey>)
    requires Conforms(rows, available) && forall row | row in multiset(part) :: row in multiset(rows)
    ensures Conforms(part, available)
  {
    forall row | row in part ensures row.Keys == available { assert row in multiset(part); }
  }

  lemma {:induction false} AppendMissingSet(columns: seq<ColumnKey>, added: seq<ColumnKey>)
    ensures ToSet(AppendMissing(columns, added)) == ToSet(columns) + ToSet(added)
    decreases |added|
  {
    if added != [] {
      AppendMissingSet(if added[0] in columns then columns else columns + [added[0]], added[1..]);
      assert ToSet(added) == {added[0]} + ToSet(added[1..]);
    }
  }

  // ----- row-wise derivations -----

  lemma {:induction false} BucketSound(rt: Runtime, x: real, bins: seq<real>, labels: seq<Value>, index: nat)
    ensures BucketFrom(rt, x, bins, labels, index).Err? ==>
      BucketFrom(rt, x, bins, labels, index).error == LabelMismatch
    decreases |bins| - index
  {
    if index + 1 < |bins| { BucketSound(rt, x, bins, labels, index + 1); }
  }

  /** One accepted row-wise operation on one row: no missing key, whatever the row holds. */
  lemma DerivedValueSound(rt: Runtime, op: Operation, row: Row)
    requires IsRowWise(op.kind) && OperationAccepted(op)
    ensures DerivedValue(rt, op, row).Err? ==> Allowed(DerivedValue(rt, op, row).error)
  {
    if op.kind.Bucketize? {
      var bins, labels := Bins(op), LabelsFor(op, |Bins(op).value| - 1);
      if labels.Ok? && BucketNumber(rt, Get(row, op.sources[0])).Some? {
        BucketSound(rt, BucketNumber(rt, Get(row, op.sources[0])).value, bins.value, labels.value, 0);
      }
    } else if IsExpression(op.kind) {
      OperationSound(rt, ExpressionName(op.kind), op.parameters, row);
    }
  }

  lemma {:induction false} DerivedValuesSound(rt: Runtime, op: Operation, rows: seq<Row>)
    requires IsRowWise(op.kind) && OperationAccepted(op)
    ensures DerivedValues(rt, op, rows).Err? ==> Allowed(DerivedValues(rt, op, rows).error)
  {
    if rows != [] {
      DerivedValuesSound(rt, op, rows[..|rows| - 1]);
      DerivedValueSound(rt, op, rows[|rows| - 1]);
    }
  }

  lemma DeriveKeeps(rt: Runtime, op: Operation, rows: seq<Row>, available: set<ColumnKey>)
    requires IsRowWise(op.kind) && OperationAccepted(op) && Conforms(rows, available)
    ensures match Derive(rt, op, rows)
            case Ok(derived) => Conforms(derived, available + {op.target.value})
            case Err(e) => Allowed(e)
  {
    DerivedValuesSound(rt, op, rows);
    if Derive(rt, op, rows).Ok? {
      ColumnAdded(rows, TargetName(op), DerivedValues(rt, op, rows).value, available);
    }
  }

  lemma ColumnAdded(rows: seq<Row>, column: ColumnKey, values: seq<Value>, available: set<ColumnKey>)
    requires |rows| == |values| && Conforms(rows, available)
    ensures Conforms(WithColumn(rows, column, values), available + {column})
  {
    var out := WithColumn(rows, column, values);
    forall row | row in out ensures row.Keys == available + {column} {
      var i :| 0 <= i < |out| && out[i] == row;
      assert rows[i] in rows;
    }
  }

  // ----- aggregations -----

  /** One accepted metric: its target is a text exactly when the executor's key is its name in the check. */
  lemma MetricRead(rt: Runtime, m: Value, available: set<ColumnKey>)
    requires MetricAccepted(rt, m, available)
    ensures LabelAt(rt, m) == Ok(Named(MetricText(rt, m, "target")))
    ensures match ParseMetric(rt, m)
            case Err(e) => e == Unhashable || (e == MissingKey("column") && !HasColumn(m))
            case Ok(metric) =>
              && HasColumn(m) && Coherent(metric)
              && Named(metric.columnText) in available && metric.targetText == MetricText(rt, m, "target")
              && (metric.column.Named? <==> TextAt(m, "column"))
              && (metric.target.Named? <==> TextAt(m, "target"))
  {
    assert MetricText(rt, m, "function") in METRIC_FUNCTIONS && "" !in METRIC_FUNCTIONS;
    assert "function" in m.entries && "target" in m.entries;
    if HasColumn(m) { TextKeepsName(rt, m, "column"); }
    TextKeepsName(rt, m, "target");
  }

  lemma TextKeepsName(rt: Runtime, m: Value, key: string)
    requires m.Dict? && key in m.entries
    ensures TextAt(m, key) ==> KeyFor(m.entries[key]) == Named(MetricText(rt, m, key))
    ensures KeyFor(m.entries[key]).Named? <==> TextAt(m, key)
  {}

  predicate AllAccepted(rt: Runtime, items: seq<Value>, available: set<ColumnKey>) {
    forall m | m in items :: MetricAccepted(rt, m, available)
  }

  lemma {:induction false} LabelsRead(rt: Runtime, items: seq<Value>, available: set<ColumnKey>)
    requires AllAccepted(rt, items, available)
    ensures LabelList(rt, items).Ok? && ToSet(LabelList(rt, items).value) == MetricTargets(rt, items)
  {
    if items != [] {
      LabelsRead(rt, items[1..], available);
      MetricRead(rt, items[0], available);
      var labels := LabelList(rt, items).value;
      assert ToSet(labels) == {labels[0]} + ToSet(labels[1..]);
      assert MetricTargets(rt, items) == {Named(MetricText(rt, items[0], "target"))} + MetricTargets(rt, items[1..]);
    }
  }

  /** Accepted metrics are all read, or stop the executor at an unhashable name or a missing column. */
  lemma {:induction false} MetricsRead(rt: Runtime, items: seq<Value>, available: set<ColumnKey>)
    requires AllAccepted(rt, items, available)
    ensures match ParseMetrics(rt, items)
            case Ok(_) => true
            case Err(e) => e == Unhashable || (e == MissingKey("column") && exists m | m in items :: !HasColumn(m))
  {
    if items != [] {
      MetricsRead(rt, items[1..], available);
      MetricRead(rt, items[0], available);
    }
  }

  lemma LabelsAreTargets(rt: Runtime, items: seq<Value>, available: set<ColumnKey>)
    requires AllAccepted(rt, items, available) && ParseMetrics(rt, items).Ok?
    ensures Labels(ParseMetrics(rt, items).value) == MetricTargets(rt, items)
  {
    LabelsRead(rt, items, available);
    LabelsListed(rt, items);
  }

  /** The executor's keys are the names in the check exactly when every target is a text. */
  lemma TextTargetsIff(rt: Runtime, items: seq<Value>, available: set<ColumnKey>)
    requires AllAccepted(rt, items, available) && ParseMetrics(rt, items).Ok?
    ensures var metrics := ParseMetrics(rt, items).value;
      if forall m | m in items :: TextAt(m, "target") then Targets(metrics) == MetricTargets(rt, items)
      else exists t :: t in Targets(metrics) && !t.Named?
  {
    var metrics := ParseMetrics(rt, items).value;
    if forall m | m in items :: TextAt(m, "target") {
      forall i | 0 <= i < |items| ensures metrics[i].target == Named(metrics[i].targetText) {
        MetricRead(rt, items[i], available);
      }
      assert Targets(metrics) == Labels(metrics);
      LabelsAreTargets(rt, items, available);
    } else {
      var i :| 0 <= i < |items| && !TextAt(items[i], "target");
      MetricRead(rt, items[i], available);
      assert metrics[i] in metrics && metrics[i].target in Targets(metrics);
    }
  }

  lemma GroupingRead(rt: Runtime, op: Operation, available: set<ColumnKey>)
    requires AggregationAccepted(rt, op, available)
    ensures GroupingOf(op) == Ok(Grouping(Names(op.parameters["group_by"].items), Items(op)))
    ensures AllAccepted(rt, Items(op), available)
  {
    var names := op.parameters["group_by"].items;
    assert seq(|names|, i requires 0 <= i < |names| => KeyFor(names[i])) == Names(names);
  }

  lemma AggregateKeeps(rt: Runtime, rows: seq<Row>, groupBy: seq<ColumnKey>, metrics: seq<Metric>)
    ensures Conforms(Aggregated(rt, rows, groupBy, metrics), ToSet(groupBy) + Targets(metrics))
  {
    var out := Aggregated(rt, rows, groupBy, metrics);
    forall row | row in out ensures row.Keys == ToSet(groupBy) + Targets(metrics) {
      var i :| 0 <= i < |out| && out[i] == row;
      GroupRowCells(rt, rows, groupBy, metrics, Heads(rows, By(groupBy))[i]);
    }
  }

  /** A window that finds every group leaves the old columns and the attached ones. */
  lemma WindowKeeps(
    rt: Runtime, rows: seq<Row>, groupBy: seq<ColumnKey>, metrics: seq<Metric>, available: set<ColumnKey>)
    requires Conforms(rows, available) && KeepsKeys(groupBy, metrics)
    ensures Windowed(rt, rows, groupBy, metrics).Ok?
    ensures Conforms(Windowed(rt, rows, groupBy, metrics).value, available + Labels(metrics))
  {
    var keyOf, grouped := By(groupBy), Aggregated(rt, rows, groupBy, metrics);
    var index := Index(keyOf, Labels(metrics), grouped);
    WindowLooksUp(rt, rows, groupBy, metrics);
    AttachAll(rows, keyOf, index);
    IndexedKeys(keyOf, Labels(metrics), grouped);
    AttachedKeys(rows, Windowed(rt, rows, groupBy, metrics).value, keyOf, index, available, Labels(metrics));
  }

  lemma {:induction false} IndexedKeys(keyOf: Row -> Key, labels: set<ColumnKey>, grouped: seq<Row>)
    ensures forall key | key in Index(keyOf, labels, grouped) :: Index(keyOf, labels, grouped)[key].Keys == labels
  {
    if grouped != [] { IndexedKeys(keyOf, labels, grouped[..|grouped| - 1]); }
  }

  lemma AttachedKeys(
    rows: seq<Row>, out: seq<Row>, keyOf: Row -> Key,
    index: map<Key, Row>, available: set<ColumnKey>, labels: set<ColumnKey>)
    requires Conforms(rows, available) && |out| == |rows| && forall key | key in index :: index[key].Keys == labels
    requires forall i | 0 <= i < |rows| :: keyOf(rows[i]) in index && out[i] == rows[i] + index[keyOf(rows[i])]
    ensures Conforms(out, available + labels)
  {
    forall row | row in out ensures row.Keys == available + labels {
      var i :| 0 <= i < |out| && out[i] == row;
      assert rows[i] in rows;
    }
  }

  // ----- the theorem -----

  ghost predicate Sound(r: Outcome<Table>, columns: set<ColumnKey>) {
    match r
    case Ok(table) => Matches(table, columns)
    case Err(e) => Allowed(e)
  }

  lemma CastSound(rt: Runtime, rows: seq<Row>, columns: seq<ColumnKey>, dataType: string, available: set<ColumnKey>)
    requires Conforms(rows, available) && ToSet(columns) <= available
    ensures Conforms(CastRows(rt, rows, columns, dataType), available)
  {
    var cast := CastRows(rt, rows, columns, dataType);
    forall row | row in cast ensures row.Keys == available {
      var i :| 0 <= i < |cast| && cast[i] == row;
      assert rows[i] in rows;
      CastKeeps(rt, rows[i], columns, dataType);
    }
  }

  lemma FillMissingSound(
    rt: Runtime, rows: seq<Row>, columns: seq<ColumnKey>, strategy: string, available: set<ColumnKey>)
    requires Conforms(rows, available) && ToSet(columns) <= available
    ensures match Processor.FillMissing(rt, rows, columns, strategy)
            case Ok(filled) => Conforms(filled, available)
            case Err(e) => Allowed(e)
  {
    CompleteRowsAreRows(rows, columns);
    FillColumnsKeep(rt, rows, columns, strategy, available);
  }

  lemma SortSound(rt: Runtime, rows: seq<Row>, columns: seq<ColumnKey>, reverse: bool, available: set<ColumnKey>)
    requires Conforms(rows, available)
    ensures Conforms(SortRows(rt, rows, columns, reverse), available)
  {
    SortKeeps(rt, rows, columns, reverse);
    SubsetConforms(SortRows(rt, rows, columns, reverse), rows, available);
  }

  lemma IgnoredTargetSound(rt: Runtime, op: Operation, table: Table, available: set<ColumnKey>)
    requires IgnoresTarget(op.kind) && CheckOperation(rt, op, available).Available? && Matches(table, available)
    ensures Sound(ExecuteOperation(rt, op, table), available)
  {
    match op.kind {
      case Cast => CastSound(rt, table.rows, op.sources, Text(rt, op.parameters["data_type"]), available);
      case FillMissing => FillMissingSound(rt, table.rows, op.sources, Text(rt, op.parameters["strategy"]), available);
      case Deduplicate =>
        DedupeKeeps(rt, table.rows, if op.sources == [] then table.columns else op.sources, {}, available);
      case Sort =>
        SortSound(rt, table.rows, op.sources, Get(op.parameters, "direction") == Str("desc"), available);
    }
  }

  lemma ToSetConcat(a: seq<ColumnKey>, b: seq<ColumnKey>)
    ensures ToSet(a + b) == ToSet(a) + ToSet(b)
  {}

  predicate Apart(groupBy: seq<ColumnKey>, items: seq<Value>) {
    forall m | m in items :: TextAt(m, "target") ==> Named(m.entries["target"].text) !in groupBy
  }

  /** Group columns are texts, so only a text target can be one of them. */
  lemma ApartKeeps(rt: Runtime, groupBy: seq<ColumnKey>, items: seq<Value>, available: set<ColumnKey>)
    requires AllAccepted(rt, items, available) && ParseMetrics(rt, items).Ok?
    requires Apart(groupBy, items) && forall c | c in groupBy :: c.Named?
    ensures KeepsKeys(groupBy, ParseMetrics(rt, items).value)
  {
    var metrics := ParseMetrics(rt, items).value;
    forall i | 0 <= i < |metrics| ensures metrics[i].target !in groupBy {
      assert items[i] in items;
      MetricRead(rt, items[i], available);
    }
  }

  lemma AggregateSound(rt: Runtime, g: Grouping, table: Table, available: set<ColumnKey>)
    requires AllAccepted(rt, g.items, available) && forall m | m in g.items :: HasColumn(m) && TextAt(m, "target")
    ensures Sound(ExecuteAggregate(rt, g, table), ToSet(g.groupBy) + MetricTargets(rt, g.items))
  {
    MetricsRead(rt, g.items, available);
    LabelsRead(rt, g.items, available);
    var r := ExecuteAggregate(rt, g, table);
    if r.Ok? {
      ToSetConcat(g.groupBy, LabelList(rt, g.items).value);
      if table.rows != [] {
        TextTargetsIff(rt, g.items, available);
        AggregateKeeps(rt, table.rows, g.groupBy, ParseMetrics(rt, g.items).value);
      }
    }
  }

  lemma WindowSound(rt: Runtime, g: Grouping, table: Table, available: set<ColumnKey>)
    requires AllAccepted(rt, g.items, available) && forall m | m in g.items :: HasColumn(m)
    requires Apart(g.groupBy, g.items) && (forall c | c in g.groupBy :: c.Named?) && Matches(table, available)
    ensures Sound(ExecuteWindow(rt, g, table), available + MetricTargets(rt, g.items))
  {
    MetricsRead(rt, g.items, available);
    LabelsRead(rt, g.items, available);
    AppendMissingSet(table.columns, LabelList(rt, g.items).value);
    if table.rows != [] && ParseMetrics(rt, g.items).Ok? {
      ApartKeeps(rt, g.groupBy, g.items, available);
      LabelsAreTargets(rt, g.items, available);
      WindowKeeps(rt, table.rows, g.groupBy, ParseMetrics(rt, g.items).value, available);
    }
  }

  lemma SelectSound(parameters: Fields, table: Table)
    requires IsNameList(parameters, "columns")
    ensures Sound(ExecuteSelect(parameters, table), ToSet(Names(parameters["columns"].items)))
  {
    var names := Names(parameters["columns"].items);
    assert NameList(parameters["columns"]).value == names;
    var rows := ProjectRows(table.rows, names);
    assert forall row | row in rows :: row.Keys == ToSet(names);
  }

  lemma AggregateLineage(rt: Runtime, op: Operation, table: Table, available: set<ColumnKey>)
    requires op.kind.Aggregate? && AggregationAccepted(rt, op, available) && Disciplined(rt, op, available)
    ensures Sound(ExecuteOperation(rt, op, table),
                  ToSet(Names(op.parameters["group_by"].items)) + MetricTargets(rt, op.parameters["metrics"].items))
  {
    GroupingRead(rt, op, available);
    AggregateSound(rt, GroupingOf(op).value, table, available);
  }

  lemma WindowLineage(rt: Runtime, op: Operation, table: Table, available: set<ColumnKey>)
    requires op.kind.WindowAggregate? && AggregationAccepted(rt, op, available) && Disciplined(rt, op, available)
    requires Matches(table, available)
    ensures Sound(ExecuteOperation(rt, op, table), available + MetricTargets(rt, op.parameters["metrics"].items))
  {
    GroupingRead(rt, op, available);
    var g := GroupingOf(op).value;
    forall m | m in g.items ensures TextAt(m, "target") ==> Named(m.entries["target"].text) !in g.groupBy {
      assert !OverwritesGroup(op, m);
    }
    WindowSound(rt, g, table, available);
  }

  lemma RowWiseSound(rt: Runtime, op: Operation, table: Table, available: set<ColumnKey>)
    requires IsRowWise(op.kind) && OperationAccepted(op) && Matches(table, available)
    ensures Sound(ExecuteDerived(rt, op, table), available + {op.target.value})
  {
    DeriveKeeps(rt, op, table.rows, available);
    AppendMissingSet(table.columns, [op.target.value]);
  }

  /** One accepted, disciplined operation: the check's column set is what the executor leaves. */
  lemma OperationLineage(rt: Runtime, op: Operation, table: Table, available: set<ColumnKey>)
    requires CheckOperation(rt, op, available).Available? && Disciplined(rt, op, available) && Matches(table, available)
    ensures Sound(ExecuteOperation(rt, op, table), CheckOperation(rt, op, available).columns)
  {
    if IgnoresTarget(op.kind) {
      IgnoredTargetSound(rt, op, table, available);
      if HasTarget(op) { assert available + {op.target.value} == available; }
    } else if op.kind.Aggregate? {
      AggregateLineage(rt, op, table, available);
    } else if op.kind.WindowAggregate? {
      WindowLineage(rt, op, table, available);
    } else if op.kind.SelectColumns? {
      SelectSound(op.parameters, table);
    } else {
      RowWiseSound(rt, op, table, available);
    }
  }

  lemma {:induction false} PlanLineage(rt: Runtime, operations: seq<Operation>, table: Table, available: set<ColumnKey>)
    requires CheckOperations(rt, operations, available).Available?
    requires PlanDisciplined(rt, operations, available) && Matches(table, available)
    ensures Sound(ExecuteAll(rt, operations, table), CheckOperations(rt, operations, available).columns)
    decreases |operations|
  {
    if operations != [] {
      OperationLineage(rt, operations[0], table, available);
      var next := ExecuteOperation(rt, operations[0], table);
      if next.Ok? {
        PlanLineage(rt, operations[1..], next.value, CheckOperation(rt, operations[0], available).columns);
      }
    }
  }

  lemma {:induction false} PrefixAccepted(rt: Runtime, operations: seq<Operation>, k: nat, available: set<ColumnKey>)
    requires k <= |operations|
    requires CheckOperations(rt, operations, available).Available? && PlanDisciplined(rt, operations, available)
    ensures CheckOperations(rt, operations[..k], available).Available?
    ensures PlanDisciplined(rt, operations[..k], available)
    decreases k
  {
    if k > 0 {
      assert operations[..k][1..] == operations[1..][..k - 1];
      PrefixAccepted(rt, operations[1..], k - 1, CheckOperation(rt, operations[0], available).columns);
    }
  }

  /**
   After any number of operations of an accepted, disciplined plan the rows have exactly the
   columns the check computed for that point, or the executor stopped for a reason other than
   a missing key.
   */
  lemma LineageSound(rt: Runtime, operations: seq<Operation>, k: nat, table: Table, available: set<ColumnKey>)
    requires k <= |operations| && Matches(table, available)
    requires CheckOperations(rt, operations, available).Available? && PlanDisciplined(rt, operations, available)
    ensures CheckOperations(rt, operations[..k], available).Available?
    ensures Sound(ExecuteAll(rt, operations[..k], table), CheckOperations(rt, operations[..k], available).columns)
  {
    PrefixAccepted(rt, operations, k, available);
    PlanLineage(rt, operations[..k], table, available);
  }

  /** The delivered rows have exactly the output columns, each read from a column that exists. */
  lemma OutputExact(
    rt: Runtime, rows: seq<Row>, columns: seq<ColumnKey>,
    operations: seq<Operation>, output: seq<ColumnKey>, selection: Selection)
    requires ToSet(columns) == ApprovedColumns(selection)
    requires PlanDisciplined(rt, NormalizeAll(operations), ApprovedColumns(selection))
    ensures match ProcessedPayload(rt, rows, columns, operations, output, selection)
            case Failed(e) => Allowed(e)
            case Processed(delivered, names) =>
              && names == output
              && Conforms(delivered, ToSet(output))
              && var final := ExecuteAll(rt, NormalizeAll(operations), InputTable(rt, rows, columns)).value.rows;
                 && |delivered| == |final|
                 && forall i, c | 0 <= i < |final| && c in output :: c in final[i] && delivered[i][c] == final[i][c]
            case _ => true
  {
    var r := ProcessedPayload(rt, rows, columns, operations, output, selection);
    var approved, table := ApprovedColumns(selection), InputTable(rt, rows, columns);
    if r.Failed? || r.Processed? {
      assert Matches(table, approved);
      PlanLineage(rt, NormalizeAll(operations), table, approved);
      if r.Processed? {
        var final := ExecuteAll(rt, NormalizeAll(operations), table).value;
        ProjectionReads(final.rows, output, CheckOperations(rt, NormalizeAll(operations), approved).columns);
      }
    }
  }

  lemma ProjectionReads(rows: seq<Row>, output: seq<ColumnKey>, available: set<ColumnKey>)
    requires Conforms(rows, available) && ToSet(output) <= available
    ensures Conforms(ProjectRows(rows, output), ToSet(output))
    ensures forall i, c | 0 <= i < |rows| && c in output ::
      c in rows[i] && ProjectRows(rows, output)[i][c] == rows[i][c]
  {
    forall i, c | 0 <= i < |rows| && c in output ensures c in rows[i] {
      assert rows[i] in rows && c in ToSet(output);
    }
  }
}
