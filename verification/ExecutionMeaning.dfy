/**
 What one operation of a plan makes of a whole table: which parameter says what, which columns the
 executor lists afterwards, and what becomes of the rows.
 */
module ExecutionMeaning {
  import opened Values
  import opened ProcessingPlan
  import opened Aggregation
  import opened Processor
  import opened OperationMeaning
  import RowMeaning
  import MetricMeaning

  /** A parameter that reads as this text. */
  predicate Says(rt: Runtime, op: Operation, key: string, text: string) {
    key in op.parameters && Text(rt, op.parameters[key]) == text
  }

  /** Every listed column is converted to the type named, in every row. */
  lemma CastRuns(rt: Runtime, op: Operation, table: Table, dataType: string, i: nat, c: ColumnKey)
    requires op.kind.Cast? && Says(rt, op, "data_type", dataType) && i < |table.rows|
    ensures ExecuteOperation(rt, op, table).Ok?
    ensures var r := ExecuteOperation(rt, op, table).value;
      && r.columns == table.columns && |r.rows| == |table.rows|
      && r.rows[i].Keys == table.rows[i].Keys + ToSet(op.sources)
      && Get(r.rows[i], c) == Recast(rt, Get(table.rows[i], c), dataType, multiset(op.sources)[c])
  {
    CastKeys(rt, table.rows[i], op.sources, dataType);
    CastMeans(rt, table.rows[i], op.sources, dataType, c);
  }

  /** Filling keeps every row and fills the listed columns, by the strategy named. */
  lemma FillRuns(rt: Runtime, op: Operation, table: Table, strategy: string, c: ColumnKey) returns (fill: Value)
    requires op.kind.FillMissing? && Says(rt, op, "strategy", strategy)
    requires strategy != "drop_row" && ExecuteOperation(rt, op, table).Ok?
    ensures var r := ExecuteOperation(rt, op, table).value;
      && r.columns == table.columns
      && if strategy == "keep_null" then r.rows == table.rows
         else if c in op.sources then Fills(rt, table.rows, c, strategy, fill) && Filled(table.rows, r.rows, c, fill)
         else SameCells(table.rows, r.rows, c)
  {
    fill := Null;
    if strategy != "keep_null" { fill := FillMeans(rt, table.rows, op.sources, strategy, c); }
  }

  /** Dropping keeps exactly the rows with a value in every listed column, in order. */
  lemma DropRuns(rt: Runtime, op: Operation, table: Table)
    requires op.kind.FillMissing? && Says(rt, op, "strategy", "drop_row")
    ensures ExecuteOperation(rt, op, table).Ok?
    ensures var r := ExecuteOperation(rt, op, table).value;
      && r.columns == table.columns && |r.rows| == RowMeaning.CompleteBefore(table.rows, op.sources, |table.rows|)
      && forall i | 0 <= i < |table.rows| && (forall c | c in op.sources :: Get(table.rows[i], c) != Null) ::
           var at := RowMeaning.CompleteBefore(table.rows, op.sources, i); at < |r.rows| && r.rows[at] == table.rows[i]
  {
    RowMeaning.DropRowKeepsComplete(table.rows, op.sources);
    forall i | 0 <= i < |table.rows| && (forall c | c in op.sources :: Get(table.rows[i], c) != Null)
      ensures Complete(table.rows[i], op.sources)
    {}
  }

  /** Rows are compared in the listed columns, in all of the table's when none is listed. */
  lemma DeduplicateRuns(rt: Runtime, op: Operation, table: Table)
    requires op.kind.Deduplicate?
    ensures var columns := if op.sources != [] then op.sources else table.columns;
      var r := ExecuteOperation(rt, op, table);
      if RowMeaning.Readable(rt, table.rows, columns)
        then r == Ok(Table(RowMeaning.FirstRows(rt, table.rows, columns), table.columns))
        else r.Err?
  {
    RowMeaning.DedupeKeepsFirst(rt, table.rows, if op.sources != [] then op.sources else table.columns);
  }

  /** No row comes strictly before an earlier one, or strictly after it when the order is descending. */
  ghost predicate InOrder(rt: Runtime, rows: seq<Row>, columns: seq<ColumnKey>, descending: bool) {
    forall i, j | 0 <= i < j < |rows| ::
      if descending then !ComesFirst(rt, rows[i], rows[j], columns) else !ComesFirst(rt, rows[j], rows[i], columns)
  }

  lemma SortedInOrder(rt: Runtime, rows: seq<Row>, columns: seq<ColumnKey>, descending: bool)
    ensures InOrder(rt, SortRows(rt, rows, columns, descending), columns, descending)
    ensures multiset(SortRows(rt, rows, columns, descending)) == multiset(rows)
  {
    RowMeaning.SortRowsSorted(rt, rows, columns, descending);
    var sorted := SortRows(rt, rows, columns, descending);
    forall i, j | 0 <= i < j < |sorted|
      ensures if descending then !ComesFirst(rt, sorted[i], sorted[j], columns)
              else !ComesFirst(rt, sorted[j], sorted[i], columns)
    {
      SortMeans(rt, rows, columns, descending, i, j);
    }
  }

  predicate Descends(op: Operation) { "direction" in op.parameters && op.parameters["direction"] == Str("desc") }

  lemma SortOutcome(rt: Runtime, op: Operation, table: Table, descending: bool)
    requires op.kind.Sort? && descending == Descends(op)
    ensures ExecuteOperation(rt, op, table)
         == Ok(Table(SortRows(rt, table.rows, op.sources, descending), table.columns))
  {}

  /** The rows are put in descending order when the direction is `desc`, and otherwise in ascending order. */
  lemma SortRuns(rt: Runtime, op: Operation, table: Table)
    requires op.kind.Sort?
    ensures ExecuteOperation(rt, op, table).Ok?
    ensures ExecuteOperation(rt, op, table).value.columns == table.columns
    ensures multiset(ExecuteOperation(rt, op, table).value.rows) == multiset(table.rows)
    ensures InOrder(rt, ExecuteOperation(rt, op, table).value.rows, op.sources, Descends(op))
  {
    SortOutcome(rt, op, table, Descends(op));
    SortedInOrder(rt, table.rows, op.sources, Descends(op));
  }

  /** A list of column names. */
  predicate Lists(v: Value, names: seq<ColumnKey>) {
    && v.List? && |v.items| == |names|
    && forall i | 0 <= i < |names| :: Hashable(v.items[i]) && names[i] == KeyFor(v.items[i])
  }

  lemma NamesListed(v: Value, names: seq<ColumnKey>)
    ensures Lists(v, names) <==> NameList(v) == Ok(names)
  {
    if Lists(v, names) {
      assert forall x | x in v.items :: Hashable(x);
      assert NameList(v).value == names;
    }
  }

  /** A selection keeps the listed columns of every row and lists them. */
  lemma SelectRuns(rt: Runtime, op: Operation, table: Table, names: seq<ColumnKey>, i: nat, c: ColumnKey)
    requires op.kind.SelectColumns? && "columns" in op.parameters && Lists(op.parameters["columns"], names)
    requires i < |table.rows|
    ensures ExecuteOperation(rt, op, table).Ok?
    ensures var r := ExecuteOperation(rt, op, table).value;
      && r.columns == names && |r.rows| == |table.rows| && r.rows[i].Keys == ToSet(names)
      && (c in names ==> r.rows[i][c] == if c in table.rows[i] then table.rows[i][c] else Null)
  {
    NamesListed(op.parameters["columns"], names);
    ProjectMeans(table.rows, names, i);
  }

  // ----- columns that are added -----

  /** The columns, and after them each added one that was missing, once. */
  ghost predicate Extends(columns: seq<ColumnKey>, added: seq<ColumnKey>, r: seq<ColumnKey>) {
    && columns <= r && ToSet(r) == ToSet(columns) + ToSet(added)
    && (forall i, j | |columns| <= j < |r| && 0 <= i < j :: r[i] != r[j])
  }

  lemma {:induction false} AppendMissingMeans(columns: seq<ColumnKey>, added: seq<ColumnKey>)
    ensures Extends(columns, added, AppendMissing(columns, added))
    decreases |added|
  {
    if added != [] {
      var next := if added[0] in columns then columns else columns + [added[0]];
      AppendMissingMeans(next, added[1..]);
      assert ToSet(next) == ToSet(columns) + {added[0]};
      assert ToSet(added) == {added[0]} + ToSet(added[1..]);
      ExtendsOn(columns, added, next, AppendMissing(columns, added));
    }
  }

  lemma ExtendsOn(columns: seq<ColumnKey>, added: seq<ColumnKey>, next: seq<ColumnKey>, r: seq<ColumnKey>)
    requires added != [] && next == if added[0] in columns then columns else columns + [added[0]]
    requires Extends(next, added[1..], r) && ToSet(r) == ToSet(columns) + ToSet(added)
    ensures Extends(columns, added, r)
  {
    forall i, j | |columns| <= j < |r| && 0 <= i < j ensures r[i] != r[j] {
      if j < |next| { assert r[j] == added[0] && r[i] == columns[i]; }
    }
  }

  /** A row-wise derivation adds its target to the listed columns and its value to every row. */
  lemma DerivedRuns(rt: Runtime, op: Operation, table: Table, i: nat)
    requires IsRowWise(op.kind) && op.target.Some? && ExecuteOperation(rt, op, table).Ok? && i < |table.rows|
    ensures var r := ExecuteOperation(rt, op, table).value;
      && Extends(table.columns, [op.target.value], r.columns) && |r.rows| == |table.rows|
      && DerivedValue(rt, op, table.rows[i]).Ok?
      && r.rows[i] == table.rows[i][op.target.value := DerivedValue(rt, op, table.rows[i]).value]
  {
    DeriveMeans(rt, op, table.rows, i);
    AppendMissingMeans(table.columns, [op.target.value]);
  }

  /** Labels that are no list of one for each interval stop a bucketize operation, even without rows. */
  lemma LabelsMismatch(rt: Runtime, op: Operation, table: Table, bins: seq<real>)
    requires op.kind.Bucketize? && Bins(op) == Ok(bins) && Get(op.parameters, "labels") != Null
    requires op.parameters["labels"].List? ==> |op.parameters["labels"].items| != |bins| - 1
    ensures ExecuteOperation(rt, op, table) == Err(LabelMismatch)
  {}

  // ----- groups -----

  /** What a metric of the plan says, as the executor reads it. */
  predicate Reads(rt: Runtime, v: Value, m: Metric) {
    && v.Dict? && "column" in v.entries && "function" in v.entries && "target" in v.entries
    && Hashable(v.entries["column"]) && Hashable(v.entries["target"])
    && m.column == KeyFor(v.entries["column"]) && m.target == KeyFor(v.entries["target"])
    && m.measure == v.entries["function"] && m.targetText == Text(rt, v.entries["target"])
  }

  /** The group columns and the metrics of an operation. */
  predicate Groups(rt: Runtime, op: Operation, groupBy: seq<ColumnKey>, metrics: seq<Metric>) {
    && "group_by" in op.parameters && Lists(op.parameters["group_by"], groupBy)
    && "metrics" in op.parameters && op.parameters["metrics"].List?
    && |op.parameters["metrics"].items| == |metrics|
    && forall i | 0 <= i < |metrics| :: Reads(rt, op.parameters["metrics"].items[i], metrics[i])
  }

  /** The names under which the metrics are listed, in order. */
  function Listed(metrics: seq<Metric>): seq<ColumnKey> {
    seq(|metrics|, i requires 0 <= i < |metrics| => Named(metrics[i].targetText))
  }

  lemma ListedFirst(metrics: seq<Metric>)
    requires metrics != []
    ensures Listed(metrics) == [Named(metrics[0].targetText)] + Listed(metrics[1..])
  {}

  lemma {:induction false} MetricsRead(rt: Runtime, items: seq<Value>) returns (metrics: seq<Metric>)
    requires ParseMetrics(rt, items).Ok?
    ensures metrics == ParseMetrics(rt, items).value && |metrics| == |items|
    ensures forall i | 0 <= i < |metrics| :: Reads(rt, items[i], metrics[i])
    ensures LabelList(rt, items) == Ok(Listed(metrics))
  {
    metrics := ParseMetrics(rt, items).value;
    if items != [] {
      var rest := MetricsRead(rt, items[1..]);
      assert metrics == [metrics[0]] + rest;
      ListedFirst(metrics);
    } else {
      assert Listed(metrics) == [];
    }
  }

  /** Groups are taken by the listed columns, which must be hashable in every row. */
  predicate Keyed(rows: seq<Row>, groupBy: seq<ColumnKey>) {
    forall i | 0 <= i < |rows| :: forall c | c in groupBy :: Hashable(Get(rows[i], c))
  }

  lemma GroupingRead(rt: Runtime, op: Operation) returns (g: Grouping, metrics: seq<Metric>)
    requires GroupingOf(op).Ok? && ParseMetrics(rt, GroupingOf(op).value.items).Ok?
    ensures GroupingOf(op) == Ok(g) && Groups(rt, op, g.groupBy, metrics)
    ensures ParseMetrics(rt, g.items) == Ok(metrics) && LabelList(rt, g.items) == Ok(Listed(metrics))
  {
    g := GroupingOf(op).value;
    NamesListed(op.parameters["group_by"], g.groupBy);
    metrics := MetricsRead(rt, g.items);
  }

  lemma AggregateParts(rt: Runtime, g: Grouping, table: Table, metrics: seq<Metric>)
    requires ExecuteAggregate(rt, g, table).Ok? && table.rows != []
    requires ParseMetrics(rt, g.items) == Ok(metrics) && LabelList(rt, g.items) == Ok(Listed(metrics))
    ensures Keyed(table.rows, g.groupBy)
    ensures ExecuteAggregate(rt, g, table)
         == Ok(Table(Aggregated(rt, table.rows, g.groupBy, metrics), g.groupBy + Listed(metrics)))
  {
    assert forall i | 0 <= i < |table.rows| :: table.rows[i] in table.rows && Groupable(table.rows[i], g.groupBy);
  }

  lemma WindowParts(rt: Runtime, g: Grouping, table: Table, metrics: seq<Metric>)
    requires ExecuteWindow(rt, g, table).Ok? && table.rows != []
    requires ParseMetrics(rt, g.items) == Ok(metrics) && LabelList(rt, g.items) == Ok(Listed(metrics))
    ensures Keyed(table.rows, g.groupBy)
    ensures Windowed(rt, table.rows, g.groupBy, metrics) == Ok(ExecuteWindow(rt, g, table).value.rows)
    ensures ExecuteWindow(rt, g, table).value.columns == AppendMissing(table.columns, Listed(metrics))
  {
    assert forall i | 0 <= i < |table.rows| :: table.rows[i] in table.rows && Groupable(table.rows[i], g.groupBy);
  }

  /** An aggregation of some rows lists its group columns and targets, and its rows are those of `AggregatedCells`. */
  lemma AggregateRuns(rt: Runtime, op: Operation, table: Table) returns (groupBy: seq<ColumnKey>, metrics: seq<Metric>)
    requires op.kind.Aggregate? && ExecuteOperation(rt, op, table).Ok? && table.rows != []
    ensures Groups(rt, op, groupBy, metrics) && Keyed(table.rows, groupBy)
    ensures ExecuteOperation(rt, op, table)
         == Ok(Table(Aggregated(rt, table.rows, groupBy, metrics), groupBy + Listed(metrics)))
  {
    var g;
    g, metrics := GroupingRead(rt, op);
    AggregateParts(rt, g, table, metrics);
    groupBy := g.groupBy;
  }

  /** A window over some rows lists its targets after the table's columns, and its rows are those of `WindowedCells`. */
  lemma WindowRuns(rt: Runtime, op: Operation, table: Table) returns (groupBy: seq<ColumnKey>, metrics: seq<Metric>)
    requires op.kind.WindowAggregate? && ExecuteOperation(rt, op, table).Ok? && table.rows != []
    ensures Groups(rt, op, groupBy, metrics) && Keyed(table.rows, groupBy)
    ensures Windowed(rt, table.rows, groupBy, metrics) == Ok(ExecuteOperation(rt, op, table).value.rows)
    ensures Extends(table.columns, Listed(metrics), ExecuteOperation(rt, op, table).value.columns)
  {
    var g;
    g, metrics := GroupingRead(rt, op);
    WindowParts(rt, g, table, metrics);
    AppendMissingMeans(table.columns, Listed(metrics));
    groupBy := g.groupBy;
  }
}
