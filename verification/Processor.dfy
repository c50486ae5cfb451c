/**
 The deterministic executor of a processing plan.
 Follows `_execute_plan` and the helpers it calls in agent_runtime/data_processing/processor.py.
 Each step of the executor is a function from tables to tables that may fail the way the
 Python code fails; the loops of the executor are methods proved equal to those functions.
 */
module Processor {
  import opened Values
  import opened ProcessingPlan
  import opened Expressions
  import opened Aggregation

  /** The rows in memory and the executor's own list of column names. */
  datatype Table = Table(rows: seq<Row>, columns: seq<ColumnKey>)

  // ----- cast and fill_missing -----

  /** `_convert`, whose conversions of non-null values are left to the runtime. */
  function Convert(rt: Runtime, v: Value, dataType: string): Value {
    if v.Null? then Null else rt.convert(v, dataType)
  }

  function CastRow(rt: Runtime, row: Row, columns: seq<ColumnKey>, dataType: string): Row {
    if columns == [] then row
    else
      var n := |columns| - 1;
      var earlier := CastRow(rt, row, columns[..n], dataType);
      earlier[columns[n] := Convert(rt, Get(earlier, columns[n]), dataType)]
  }

  function CastRows(rt: Runtime, rows: seq<Row>, columns: seq<ColumnKey>, dataType: string): seq<Row> {
    seq(|rows|, i requires 0 <= i < |rows| => CastRow(rt, rows[i], columns, dataType))
  }

  /** `[row[column] for row in rows if row[column] is not None]`: a direct read of every row. */
  function ColumnValues(rows: seq<Row>, column: ColumnKey): Outcome<seq<Value>> {
    if rows == [] then Ok([])
    else
      var head :- Cell(rows[0], column);
      var tail :- ColumnValues(rows[1..], column);
      Ok(if head.Null? then tail else [head] + tail)
  }

  function Occurrences(values: seq<Value>, v: Value): nat {
    |EqualTo(values, v)|
  }

  function EqualTo(values: seq<Value>, v: Value): seq<Value> {
    if values == [] then []
    else if PyEqual(values[0], v) then [values[0]] + EqualTo(values[1..], v)
    else EqualTo(values[1..], v)
  }

  /** `Counter(values).most_common(1)[0][0]`: the first value of greatest count. */
  function MostCommon(values: seq<Value>, candidates: seq<Value>): Value
    requires candidates != []
  {
    if |candidates| == 1 then candidates[0]
    else
      var later := MostCommon(values, candidates[1..]);
      if Occurrences(values, later) > Occurrences(values, candidates[0]) then later else candidates[0]
  }

  function FillValue(rt: Runtime, rows: seq<Row>, column: ColumnKey, strategy: string): Outcome<Value> {
    var values :- ColumnValues(rows, column);
    if values == [] then Ok(Null)
    else if strategy == "median" then
      var numbers := Numbers(values);
      Ok(if numbers == [] then Null else Float(rt.median(numbers)))
    else if strategy == "mode" then
      if exists v | v in values :: !Hashable(v) then Err(Unhashable) else Ok(MostCommon(values, values))
    else if strategy == "zero" then Ok(Int(0))
    else Ok(Null)
  }

  function FillColumn(rows: seq<Row>, column: ColumnKey, fill: Value): seq<Row> {
    seq(|rows|, i requires 0 <= i < |rows| =>
      if !fill.Null? && Get(rows[i], column).Null? then rows[i][column := fill] else rows[i])
  }

  function FillColumns(rt: Runtime, rows: seq<Row>, columns: seq<ColumnKey>, strategy: string): Outcome<seq<Row>>
    decreases |columns|
  {
    if columns == [] then Ok(rows)
    else
      var fill :- FillValue(rt, rows, columns[0], strategy);
      FillColumns(rt, FillColumn(rows, columns[0], fill), columns[1..], strategy)
  }

  predicate Complete(row: Row, columns: seq<ColumnKey>) {
    forall c | c in columns :: !Get(row, c).Null?
  }

  function CompleteRows(rows: seq<Row>, columns: seq<ColumnKey>): seq<Row> {
    if rows == [] then []
    else if Complete(rows[0], columns) then [rows[0]] + CompleteRows(rows[1..], columns)
    else CompleteRows(rows[1..], columns)
  }

  function FillMissing(rt: Runtime, rows: seq<Row>, columns: seq<ColumnKey>, strategy: string): Outcome<seq<Row>> {
    if strategy == "drop_row" then Ok(CompleteRows(rows, columns))
    else if strategy == "keep_null" then Ok(rows)
    else FillColumns(rt, rows, columns, strategy)
  }

  // ----- deduplicate -----

  /** `tuple(repr(row[column]) for column in columns)`: a direct read of every column. */
  function Marker(rt: Runtime, row: Row, columns: seq<ColumnKey>): Outcome<seq<string>> {
    if columns == [] then Ok([])
    else
      var head :- Cell(row, columns[0]);
      var tail :- Marker(rt, row, columns[1..]);
      Ok([rt.repr(head)] + tail)
  }

  function Dedupe(rt: Runtime, rows: seq<Row>, columns: seq<ColumnKey>, seen: set<seq<string>>): Outcome<seq<Row>> {
    if rows == [] then Ok([])
    else
      var marker :- Marker(rt, rows[0], columns);
      var tail :- Dedupe(rt, rows[1..], columns, seen + {marker});
      Ok(if marker in seen then tail else [rows[0]] + tail)
  }

  // ----- row-wise derivations -----

  function TargetName(op: Operation): ColumnKey {
    if op.target.Some? then op.target.value else Named("None")
  }

  function InsertReal(sorted: seq<real>, x: real): seq<real> {
    if sorted == [] || x < sorted[0] then [x] + sorted else [sorted[0]] + InsertReal(sorted[1..], x)
  }

  function SortedReals(numbers: seq<real>): seq<real> {
    if numbers == [] then [] else InsertReal(SortedReals(numbers[..|numbers| - 1]), numbers[|numbers| - 1])
  }

  /** `float(value)` for a bucket: text is parsed, None and containers have no number. */
  function BucketNumber(rt: Runtime, v: Value): Option<real> {
    if IsNumber(v) then Some(AsReal(v)) else if v.Str? then rt.parseFloat(v.text) else None
  }

  function BucketFrom(rt: Runtime, x: real, bins: seq<real>, labels: seq<Value>, index: nat): Outcome<Value>
    decreases |bins| - index
  {
    if index + 1 >= |bins| then Ok(Null)
    else if bins[index] <= x < bins[index + 1] || (index == |bins| - 2 && x == bins[index + 1]) then
      if labels == [] then Ok(Str(rt.rangeLabel(bins[index], bins[index + 1])))
      else if index < |labels| then Ok(Str(Text(rt, labels[index])))
      else Err(LabelMismatch)
    else BucketFrom(rt, x, bins, labels, index + 1)
  }

  function Bins(op: Operation): Outcome<seq<real>> {
    var bins :- Field(op.parameters, "bins");
    if bins.List? && forall v | v in bins.items :: IsNumber(v) then Ok(SortedReals(Numbers(bins.items)))
    else Err(BadExpression)
  }

  /** The label list, checked against the number of intervals before any row is touched. */
  function LabelsFor(op: Operation, intervals: int): Outcome<seq<Value>> {
    var labels := Get(op.parameters, "labels");
    if labels.Null? then Ok([])
    else if labels.List? && |labels.items| == intervals then Ok(labels.items)
    else Err(LabelMismatch)
  }

  /** The value one row-wise operation gives one row. */
  function DerivedValue(rt: Runtime, op: Operation, row: Row): Outcome<Value>
    requires IsRowWise(op.kind)
  {
    if op.kind.DeriveDatePart? then
      var part :- Field(op.parameters, "part");
      var zone := if "timezone" in op.parameters then Text(rt, op.parameters["timezone"]) else "UTC";
      if op.sources == [] then Err(BadExpression)
      else
        var v := Get(row, op.sources[0]);
        Ok(if v.Null? then Null else rt.datePart(v, Text(rt, part), zone))
    else if op.kind.Bucketize? then
      var bins :- Bins(op);
      var labels :- LabelsFor(op, |bins| - 1);
      if op.sources == [] then Err(BadExpression)
      else
        match BucketNumber(rt, Get(row, op.sources[0]))
        case None => Ok(Null)
        case Some(x) => BucketFrom(rt, x, bins, labels, 0)
    else
      Evaluate(rt, Dict(map["operation" := Str(ExpressionName(op.kind)), "parameters" := Dict(op.parameters)]), row)
  }

  function DerivedValues(rt: Runtime, op: Operation, rows: seq<Row>): (r: Outcome<seq<Value>>)
    requires IsRowWise(op.kind)
    ensures r.Ok? ==> |r.value| == |rows|
  {
    if rows == [] then Ok([])
    else
      var earlier :- DerivedValues(rt, op, rows[..|rows| - 1]);
      var last :- DerivedValue(rt, op, rows[|rows| - 1]);
      Ok(earlier + [last])
  }

  /** A bucketize with a bad label list fails even on no rows. */
  function Precheck(op: Operation): Outcome<bool> {
    if op.kind.Bucketize? then
      var bins :- Bins(op);
      var labels :- LabelsFor(op, |bins| - 1);
      Ok(true)
    else Ok(true)
  }

  function WithColumn(rows: seq<Row>, column: ColumnKey, values: seq<Value>): seq<Row>
    requires |rows| == |values|
  {
    seq(|rows|, i requires 0 <= i < |rows| => rows[i][column := values[i]])
  }

  function Derive(rt: Runtime, op: Operation, rows: seq<Row>): Outcome<seq<Row>>
    requires IsRowWise(op.kind)
  {
    var checked :- Precheck(op);
    var values :- DerivedValues(rt, op, rows);
    Ok(WithColumn(rows, TargetName(op), values))
  }

  // ----- grouping parameters -----

  /** A list of column names; a name that cannot be a key makes the first read of a row fail. */
  function NameList(v: Value): Outcome<seq<ColumnKey>> {
    if !v.List? then Err(BadExpression)
    else if exists x | x in v.items :: !Hashable(x) then Err(Unhashable)
    else Ok(seq(|v.items|, i requires 0 <= i < |v.items| => KeyFor(v.items[i])))
  }

  /** `metric[key]` used as a key of a row. */
  function NameAt(metric: Fields, key: string): Outcome<Value> {
    var name :- Field(metric, key);
    if Hashable(name) then Ok(name) else Err(Unhashable)
  }

  function ParseMetric(rt: Runtime, v: Value): Outcome<Metric> {
    if !v.Dict? then Err(BadExpression)
    else
      var column :- NameAt(v.entries, "column");
      var measure :- Field(v.entries, "function");
      var target :- NameAt(v.entries, "target");
      Ok(Metric(KeyFor(column), MetricText(rt, v, "column"), measure, KeyFor(target), Text(rt, target)))
  }

  function ParseMetrics(rt: Runtime, items: seq<Value>): (r: Outcome<seq<Metric>>)
    ensures r.Ok? ==> |r.value| == |items| && forall i | 0 <= i < |items| :: ParseMetric(rt, items[i]) == Ok(r.value[i])
  {
    if items == [] then Ok([])
    else
      var head :- ParseMetric(rt, items[0]);
      var tail :- ParseMetrics(rt, items[1..]);
      Ok([head] + tail)
  }

  /** The metrics as the executor reads them: only while it computes the metrics of some group. */
  function ReadMetrics(rt: Runtime, items: seq<Value>, rows: seq<Row>): Outcome<seq<Metric>> {
    if rows == [] then Ok([]) else ParseMetrics(rt, items)
  }

  function LabelAt(rt: Runtime, v: Value): Outcome<ColumnKey> {
    if !v.Dict? then Err(BadExpression)
    else
      var target :- Field(v.entries, "target");
      Ok(Named(Text(rt, target)))
  }

  /** `[str(metric["target"]) for metric in metrics]`: the columns the executor lists. */
  function LabelList(rt: Runtime, items: seq<Value>): Outcome<seq<ColumnKey>> {
    if items == [] then Ok([])
    else
      var head :- LabelAt(rt, items[0]);
      var tail :- LabelList(rt, items[1..]);
      Ok([head] + tail)
  }

  datatype Grouping = Grouping(groupBy: seq<ColumnKey>, items: seq<Value>)

  function GroupingOf(op: Operation): Outcome<Grouping> {
    var groupBy :- Field(op.parameters, "group_by");
    var names :- NameList(groupBy);
    var metrics :- Field(op.parameters, "metrics");
    if !metrics.List? then Err(BadExpression) else Ok(Grouping(names, metrics.items))
  }

  // ----- sort and select_columns -----

  /** `_sortable(a) < _sortable(b)`: None sorts last, everything else by its text. */
  predicate SortsBefore(rt: Runtime, a: Value, b: Value) {
    if a.Null? != b.Null? then b.Null? else TextLess(Text(rt, a), Text(rt, b))
  }

  predicate RowBefore(rt: Runtime, a: Row, b: Row, columns: seq<ColumnKey>) {
    if columns == [] then false
    else
      var x, y := Get(a, columns[0]), Get(b, columns[0]);
      SortsBefore(rt, x, y) || (!SortsBefore(rt, y, x) && RowBefore(rt, a, b, columns[1..]))
  }

  /** Stable insertion; a reversed sort keeps equal rows in input order too. */
  function InsertRow(rt: Runtime, sorted: seq<Row>, row: Row, columns: seq<ColumnKey>, reverse: bool): seq<Row> {
    if sorted == [] then [row]
    else
      var before := if reverse then RowBefore(rt, sorted[0], row, columns) else RowBefore(rt, row, sorted[0], columns);
      if before then [row] + sorted else [sorted[0]] + InsertRow(rt, sorted[1..], row, columns, reverse)
  }

  function SortRows(rt: Runtime, rows: seq<Row>, columns: seq<ColumnKey>, reverse: bool): seq<Row> {
    if rows == [] then []
    else InsertRow(rt, SortRows(rt, rows[..|rows| - 1], columns, reverse), rows[|rows| - 1], columns, reverse)
  }

  function Project(row: Row, columns: seq<ColumnKey>): Row {
    map c | c in columns :: Get(row, c)
  }

  function ProjectRows(rows: seq<Row>, columns: seq<ColumnKey>): seq<Row> {
    seq(|rows|, i requires 0 <= i < |rows| => Project(rows[i], columns))
  }

  // ----- one operation -----

  function AppendMissing(columns: seq<ColumnKey>, added: seq<ColumnKey>): seq<ColumnKey>
    decreases |added|
  {
    if added == [] then columns
    else AppendMissing(if added[0] in columns then columns else columns + [added[0]], added[1..])
  }

  function ExecuteWindow(rt: Runtime, g: Grouping, table: Table): Outcome<Table> {
    if !AllGroupable(table.rows, g.groupBy) then Err(Unhashable)
    else
      var metrics :- ReadMetrics(rt, g.items, table.rows);
      var labels :- LabelList(rt, g.items);
      var rows :- Windowed(rt, table.rows, g.groupBy, metrics);
      Ok(Table(rows, AppendMissing(table.columns, labels)))
  }

  function ExecuteAggregate(rt: Runtime, g: Grouping, table: Table): Outcome<Table> {
    if !AllGroupable(table.rows, g.groupBy) then Err(Unhashable)
    else
      var metrics :- ReadMetrics(rt, g.items, table.rows);
      var labels :- LabelList(rt, g.items);
      Ok(Table(Aggregated(rt, table.rows, g.groupBy, metrics), g.groupBy + labels))
  }

  function ExecuteSelect(parameters: Fields, table: Table): Outcome<Table> {
    var columns :- Field(parameters, "columns");
    var names :- NameList(columns);
    Ok(Table(ProjectRows(table.rows, names), names))
  }

  function ExecuteDerived(rt: Runtime, op: Operation, table: Table): Outcome<Table>
    requires IsRowWise(op.kind)
  {
    var rows :- Derive(rt, op, table.rows);
    Ok(Table(rows, AppendMissing(table.columns, [TargetName(op)])))
  }

  function ExecuteOperation(rt: Runtime, op: Operation, table: Table): Outcome<Table> {
    match op.kind
    case Cast =>
      var dataType :- Field(op.parameters, "data_type");
      Ok(table.(rows := CastRows(rt, table.rows, op.sources, Text(rt, dataType))))
    case FillMissing =>
      var strategy :- Field(op.parameters, "strategy");
      var rows :- FillMissing(rt, table.rows, op.sources, Text(rt, strategy));
      Ok(table.(rows := rows))
    case Deduplicate =>
      var rows :- Dedupe(rt, table.rows, if op.sources == [] then table.columns else op.sources, {});
      Ok(table.(rows := rows))
    case WindowAggregate =>
      var grouping :- GroupingOf(op);
      ExecuteWindow(rt, grouping, table)
    case Aggregate =>
      var grouping :- GroupingOf(op);
      ExecuteAggregate(rt, grouping, table)
    case Sort =>
      Ok(table.(rows := SortRows(rt, table.rows, op.sources, Get(op.parameters, "direction") == Str("desc"))))
    case SelectColumns => ExecuteSelect(op.parameters, table)
    case _ => ExecuteDerived(rt, op, table)
  }

  function ExecuteAll(rt: Runtime, operations: seq<Operation>, table: Table): Outcome<Table>
    decreases |operations|
  {
    if operations == [] then Ok(table)
    else
      var next :- ExecuteOperation(rt, operations[0], table);
      ExecuteAll(rt, operations[1..], next)
  }

  // ----- the loops -----

  method CastLoop(rt: Runtime, input: seq<Row>, columns: seq<ColumnKey>, dataType: string) returns (rows: seq<Row>)
    ensures rows == CastRows(rt, input, columns, dataType)
  {
    rows := input;
    for k := 0 to |columns|
      invariant rows == CastRows(rt, input, columns[..k], dataType)
    {
      ghost var before := rows;
      assert columns[..k + 1][..k] == columns[..k];
      for i := 0 to |rows|
        invariant |rows| == |before| == |input|
        invariant forall j | 0 <= j < i :: rows[j] == CastRow(rt, input[j], columns[..k + 1], dataType)
        invariant forall j | i <= j < |rows| :: rows[j] == before[j]
      {
        rows := rows[i := rows[i][columns[k] := Convert(rt, Get(rows[i], columns[k]), dataType)]];
      }
    }
    assert columns[..|columns|] == columns;
  }

  method FillMissingLoop(rt: Runtime, input: seq<Row>, columns: seq<ColumnKey>, strategy: string)
    returns (r: Outcome<seq<Row>>)
    ensures r == FillMissing(rt, input, columns, strategy)
  {
    if strategy == "drop_row" { return Ok(CompleteRows(input, columns)); }
    if strategy == "keep_null" { return Ok(input); }
    var rows := input;
    for k := 0 to |columns|
      invariant FillColumns(rt, input, columns, strategy) == FillColumns(rt, rows, columns[k..], strategy)
    {
      assert columns[k..][0] == columns[k] && columns[k..][1..] == columns[k + 1..];
      var fill :- FillValue(rt, rows, columns[k], strategy);
      if fill.Null? {
        assert FillColumn(rows, columns[k], fill) == rows;
        continue;
      }
      ghost var before := rows;
      for i := 0 to |rows|
        invariant |rows| == |before|
        invariant forall j | 0 <= j < i :: rows[j] == FillColumn(before, columns[k], fill)[j]
        invariant forall j | i <= j < |rows| :: rows[j] == before[j]
      {
        if Get(rows[i], columns[k]).Null? { rows := rows[i := rows[i][columns[k] := fill]]; }
      }
      assert rows == FillColumn(before, columns[k], fill);
    }
    r := Ok(rows);
  }

  function Prepend(head: seq<Row>, tail: Outcome<seq<Row>>): Outcome<seq<Row>> {
    if tail.Ok? then Ok(head + tail.value) else tail
  }

  lemma PrependNothing(tail: Outcome<seq<Row>>)
    ensures Prepend([], tail) == tail
  {
    if tail.Ok? { assert [] + tail.value == tail.value; }
  }

  method DeduplicateLoop(rt: Runtime, rows: seq<Row>, columns: seq<ColumnKey>) returns (r: Outcome<seq<Row>>)
    ensures r == Dedupe(rt, rows, columns, {})
  {
    var seen := {};
    var result := [];
    assert rows[0..] == rows;
    PrependNothing(Dedupe(rt, rows, columns, {}));
    for i := 0 to |rows|
      invariant Dedupe(rt, rows, columns, {}) == Prepend(result, Dedupe(rt, rows[i..], columns, seen))
    {
      assert rows[i..][0] == rows[i] && rows[i..][1..] == rows[i + 1..];
      var marker :- Marker(rt, rows[i], columns);
      ghost var tail := Dedupe(rt, rows[i + 1..], columns, seen + {marker});
      if marker !in seen {
        assert tail.Ok? ==> result + ([rows[i]] + tail.value) == (result + [rows[i]]) + tail.value;
        seen := seen + {marker};
        result := result + [rows[i]];
      } else {
        assert seen + {marker} == seen;
      }
    }
    assert result + [] == result;
    r := Ok(result);
  }

  lemma {:induction false} DerivedValuesFail(rt: Runtime, op: Operation, rows: seq<Row>, i: nat)
    requires IsRowWise(op.kind) && i < |rows|
    requires DerivedValues(rt, op, rows[..i]).Ok? && DerivedValue(rt, op, rows[i]).Err?
    ensures DerivedValues(rt, op, rows) == Err(DerivedValue(rt, op, rows[i]).error)
  {
    if i < |rows| - 1 {
      assert rows[..|rows| - 1][..i] == rows[..i];
      DerivedValuesFail(rt, op, rows[..|rows| - 1], i);
    }
  }

  method DeriveLoop(rt: Runtime, op: Operation, input: seq<Row>) returns (r: Outcome<seq<Row>>)
    requires IsRowWise(op.kind)
    ensures r == Derive(rt, op, input)
  {
    var checked :- Precheck(op);
    var rows := input;
    for i := 0 to |rows|
      invariant |rows| == |input|
      invariant DerivedValues(rt, op, input[..i]).Ok?
      invariant rows[..i] == WithColumn(input[..i], TargetName(op), DerivedValues(rt, op, input[..i]).value)
      invariant rows[i..] == input[i..]
    {
      assert rows[i] == rows[i..][0] == input[i];
      assert input[..i + 1][..i] == input[..i];
      var v := DerivedValue(rt, op, rows[i]);
      if v.Err? {
        DerivedValuesFail(rt, op, input, i);
        return Err(v.error);
      }
      ghost var before := rows;
      rows := rows[i := rows[i][TargetName(op) := v.value]];
      assert rows[..i + 1] == before[..i] + [rows[i]];
      assert rows[i + 1..] == before[i..][1..];
    }
    assert input[..|rows|] == input && rows[..|rows|] == rows;
    r := Ok(rows);
  }

  /** `_aggregate`: the rows are grouped before the first metric is read. */
  method AggregateStep(rt: Runtime, g: Grouping, table: Table) returns (r: Outcome<Table>)
    ensures r == ExecuteAggregate(rt, g, table)
  {
    var groupable, grouped, heads := GroupRows(table.rows, g.groupBy);
    if !groupable { return Err(Unhashable); }
    var metrics :- ReadMetrics(rt, g.items, table.rows);
    var labels :- LabelList(rt, g.items);
    var rows := AggregateRows(rt, table.rows, g.groupBy, metrics, grouped, heads);
    r := Ok(Table(rows, g.groupBy + labels));
  }

  lemma {:induction false} LabelsListed(rt: Runtime, items: seq<Value>)
    requires ParseMetrics(rt, items).Ok?
    ensures LabelList(rt, items).Ok?
    ensures ToSet(LabelList(rt, items).value) == Labels(ParseMetrics(rt, items).value)
  {
    if items != [] {
      LabelsListed(rt, items[1..]);
      var metrics, labels := ParseMetrics(rt, items).value, LabelList(rt, items).value;
      assert ToSet(labels) == {labels[0]} + ToSet(labels[1..]);
      assert Labels(metrics) == {Named(metrics[0].targetText)} + Labels(metrics[1..]);
    }
  }

  /** `_window_aggregate`: aggregate, index the groups by their keys, attach to every row. */
  method WindowStep(rt: Runtime, g: Grouping, table: Table) returns (r: Outcome<Table>)
    ensures r == ExecuteWindow(rt, g, table)
  {
    var grouped :- AggregateStep(rt, g, table);
    var labels := LabelList(rt, g.items).value;
    if table.rows != [] { LabelsListed(rt, g.items); }
    var index := IndexLoop(g.groupBy, ToSet(labels), grouped.rows);
    var rows :- AttachLoop(table.rows, g.groupBy, index);
    r := Ok(Table(rows, AppendMissing(table.columns, labels)));
  }

  /** `_execute_plan`: every operation in turn, each over the rows the previous one left. */
  method ExecutePlan(rt: Runtime, operations: seq<Operation>, table: Table) returns (r: Outcome<Table>)
    ensures r == ExecuteAll(rt, operations, table)
  {
    var rows, columns := table.rows, table.columns;
    for i := 0 to |operations|
      invariant ExecuteAll(rt, operations, table) == ExecuteAll(rt, operations[i..], Table(rows, columns))
    {
      var op := operations[i];
      assert operations[i..][0] == op && operations[i..][1..] == operations[i + 1..];
      match op.kind {
        case Cast =>
          var dataType :- Field(op.parameters, "data_type");
          rows := CastLoop(rt, rows, op.sources, Text(rt, dataType));
        case FillMissing =>
          var strategy :- Field(op.parameters, "strategy");
          rows :- FillMissingLoop(rt, rows, op.sources, Text(rt, strategy));
        case Deduplicate =>
          rows :- DeduplicateLoop(rt, rows, if op.sources == [] then columns else op.sources);
        case WindowAggregate =>
          var grouping :- GroupingOf(op);
          var next :- WindowStep(rt, grouping, Table(rows, columns));
          rows, columns := next.rows, next.columns;
        case Aggregate =>
          var grouping :- GroupingOf(op);
          var next :- AggregateStep(rt, grouping, Table(rows, columns));
          rows, columns := next.rows, next.columns;
        case Sort =>
          rows := SortRows(rt, rows, op.sources, Get(op.parameters, "direction") == Str("desc"));
        case SelectColumns =>
          var names :- Field(op.parameters, "columns");
          columns :- NameList(names);
          rows := ProjectRows(rows, columns);
        case _ =>
          rows :- DeriveLoop(rt, op, rows);
          columns := AppendMissing(columns, [TargetName(op)]);
      }
    }
    r := Ok(Table(rows, columns));
  }

  // ----- the whole payload -----

  function NormalizeNull(rt: Runtime, v: Value): Value {
    if v.Str? then rt.normalizeText(v.text) else v
  }

  function NormalizeRow(rt: Runtime, row: Row, columns: seq<ColumnKey>): Row {
    map c | c in columns :: NormalizeNull(rt, Get(row, c))
  }

  /** `dict.fromkeys(key for row in rows for key in row)`, given each row's keys in order. */
  function InputTable(rt: Runtime, rows: seq<Row>, columns: seq<ColumnKey>): Table {
    Table(seq(|rows|, i requires 0 <= i < |rows| => NormalizeRow(rt, rows[i], columns)), columns)
  }

  datatype Payload =
    | Processed(rows: seq<Row>, columns: seq<ColumnKey>)
    | Invalid(plan: PlanError)
    | Unavailable
    | Failed(error: Failure)

  /** Validation, execution and projection to the plan's output columns, as one request runs them. */
  method ProcessPayload(
    rt: Runtime, rows: seq<Row>, columns: seq<ColumnKey>,
    operations: seq<Operation>, output: seq<ColumnKey>, selection: Selection)
    returns (r: Payload)
    ensures r == ProcessedPayload(rt, rows, columns, operations, output, selection)
  {
    var checked, normalized := ValidateProcessingOperations(rt, operations, selection);
    if checked.Rejected? { return Invalid(checked.error); }
    if !(ToSet(output) <= checked.columns) { return Unavailable; }
    var result := ExecutePlan(rt, normalized, InputTable(rt, rows, columns));
    if result.Err? { return Failed(result.error); }
    r := Processed(ProjectRows(result.value.rows, output), output);
  }

  function ProcessedPayload(
    rt: Runtime, rows: seq<Row>, columns: seq<ColumnKey>,
    operations: seq<Operation>, output: seq<ColumnKey>, selection: Selection)
    : Payload
  {
    var approved := ApprovedColumns(selection);
    if approved == {} then Invalid(NoSourceColumns)
    else
      match CheckOperations(rt, NormalizeAll(operations), approved)
      case Rejected(e) => Invalid(e)
      case Available(available) =>
        if !(ToSet(output) <= available) then Unavailable
        else
          match ExecuteAll(rt, NormalizeAll(operations), InputTable(rt, rows, columns))
          case Err(e) => Failed(e)
          case Ok(table) => Processed(ProjectRows(table.rows, output), output)
  }
}
