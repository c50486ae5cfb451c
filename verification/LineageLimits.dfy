/**
 Where the plan check and the executor part: for each condition of `Lineage.Disciplined` that the
 check does not look at, the exact condition under which the computed columns are right, and a
 plan that the check accepts and the executor cannot run.
 */
module LineageLimits {
  import opened Values
  import opened ProcessingPlan
  import opened Aggregation
  import opened WindowProofs
  import opened WindowDelivery
  import opened Processor
  import opened Lineage

  /** For an operation that creates no column, the computed set is right iff its target is not new. */
  lemma PhantomTargetIff(rt: Runtime, op: Operation, table: Table, available: set<ColumnKey>)
    requires IgnoresTarget(op.kind) && CheckOperation(rt, op, available).Available? && Matches(table, available)
    requires ExecuteOperation(rt, op, table).Ok? && ExecuteOperation(rt, op, table).value.rows != []
    ensures Conforms(ExecuteOperation(rt, op, table).value.rows, CheckOperation(rt, op, available).columns)
       <==> Disciplined(rt, op, available)
  {
    IgnoredTargetSound(rt, op, table, available);
    var rows := ExecuteOperation(rt, op, table).value.rows;
    assert rows[0] in rows && rows[0].Keys == available;
    if HasTarget(op) && op.target.value !in available {
      assert op.target.value in CheckOperation(rt, op, available).columns;
    }
  }

  /** Sorting "into" a new column and deduplicating on it is accepted, and fails on every input row. */
  lemma PhantomTargetMisses(rt: Runtime, x: ColumnKey, table: Table, available: set<ColumnKey>)
    requires x != Named("") && x !in available && Matches(table, available) && table.rows != []
    ensures var plan := [Operation(Sort, [], Some(x), map[]), Operation(Deduplicate, [x], None, map[])];
      && CheckOperations(rt, plan, available).Available?
      && ExecuteAll(rt, plan, table) == Err(MissingColumn(x))
  {
    var sort, dedupe := Operation(Sort, [], Some(x), map[]), Operation(Deduplicate, [x], None, map[]);
    assert CheckOperation(rt, sort, available) == Available(available + {x});
    DedupeAccepted(rt, x, available + {x});
    SortedMisses(rt, table.rows, x, available);
    DedupeMisses(rt, table.(rows := SortRows(rt, table.rows, [], false)), x);
    SecondStepFails(rt, sort, dedupe, table, available, available + {x});
  }

  lemma SortedMisses(rt: Runtime, rows: seq<Row>, x: ColumnKey, available: set<ColumnKey>)
    requires rows != [] && Conforms(rows, available) && x !in available
    ensures SortRows(rt, rows, [], false) != [] && x !in SortRows(rt, rows, [], false)[0]
  {
    SortSound(rt, rows, [], false, available);
    SortKeeps(rt, rows, [], false);
    var sorted := SortRows(rt, rows, [], false);
    assert |sorted| == |multiset(sorted)| == |rows|;
    assert sorted[0] in sorted;
  }

  lemma DedupeAccepted(rt: Runtime, x: ColumnKey, available: set<ColumnKey>)
    requires x in available
    ensures CheckOperation(rt, Operation(Deduplicate, [x], None, map[]), available) == Available(available)
  {
    assert ToSet([x]) == {x};
  }

  lemma DedupeMisses(rt: Runtime, table: Table, x: ColumnKey)
    requires table.rows != [] && x !in table.rows[0]
    ensures ExecuteOperation(rt, Operation(Deduplicate, [x], None, map[]), table) == Err(MissingColumn(x))
  {
    assert Marker(rt, table.rows[0], [x]) == Err(MissingColumn(x));
  }

  lemma SecondStepFails(
    rt: Runtime, a: Operation, b: Operation, table: Table, available: set<ColumnKey>, between: set<ColumnKey>)
    requires CheckOperation(rt, a, available) == Available(between) && CheckOperation(rt, b, between).Available?
    requires ExecuteOperation(rt, a, table).Ok? && ExecuteOperation(rt, b, ExecuteOperation(rt, a, table).value).Err?
    ensures CheckOperations(rt, [a, b], available).Available?
    ensures ExecuteAll(rt, [a, b], table) == Err(ExecuteOperation(rt, b, ExecuteOperation(rt, a, table).value).error)
  {
    assert [a, b][1..] == [b] && [b][1..] == [];
    assert CheckOperations(rt, [b], between) == CheckOperation(rt, b, between);
  }

  lemma {:induction false} SomeHead(rows: seq<Row>, keyOf: Row -> Key)
    requires rows != []
    ensures Heads(rows, keyOf) != []
  {
    if |rows| > 1 { SomeHead(rows[..|rows| - 1], keyOf); }
  }

  /** For an aggregation the computed set is right exactly when every metric target is a text. */
  lemma AggregateColumnsIff(rt: Runtime, op: Operation, table: Table, available: set<ColumnKey>)
    requires op.kind.Aggregate? && CheckOperation(rt, op, available).Available? && table.rows != []
    requires ExecuteOperation(rt, op, table).Ok?
    ensures Conforms(ExecuteOperation(rt, op, table).value.rows, CheckOperation(rt, op, available).columns)
       <==> forall m | m in Items(op) :: TextAt(m, "target")
  {
    GroupingRead(rt, op, available);
    TextTargetsConform(rt, GroupingOf(op).value, table.rows, available);
  }

  lemma TextTargetsConform(rt: Runtime, g: Grouping, rows: seq<Row>, available: set<ColumnKey>)
    requires AllAccepted(rt, g.items, available) && ParseMetrics(rt, g.items).Ok?
    requires rows != [] && forall c | c in g.groupBy :: c.Named?
    ensures var columns := ToSet(g.groupBy) + MetricTargets(rt, g.items);
      Conforms(Aggregated(rt, rows, g.groupBy, ParseMetrics(rt, g.items).value), columns)
      <==> forall m | m in g.items :: TextAt(m, "target")
  {
    var metrics := ParseMetrics(rt, g.items).value;
    TextTargetsIff(rt, g.items, available);
    AggregateKeeps(rt, rows, g.groupBy, metrics);
    SomeHead(rows, By(g.groupBy));
    var out := Aggregated(rt, rows, g.groupBy, metrics);
    assert out[0] in out;
  }

  /** A metric target that is not a text: the count is stored under the number, not under its text. */
  function OddCount(g: string, c: string, n: int): Operation {
    Operation(Aggregate, [], None, map["group_by" := List([Str(g)]), "metrics" := List([OddMetric(c, n)])])
  }

  function OddMetric(c: string, n: int): Value {
    Dict(map["column" := Str(c), "function" := Str("count"), "target" := Int(n)])
  }

  lemma OddMetricAccepted(rt: Runtime, c: string, n: int, available: set<ColumnKey>)
    requires c != "" && n != 0 && rt.str(Int(n)) != "" && Named(c) in available
    ensures MetricAccepted(rt, OddMetric(c, n), available)
    ensures MetricTargets(rt, [OddMetric(c, n)]) == {Named(rt.str(Int(n)))}
  {
    assert MetricText(rt, OddMetric(c, n), "target") == rt.str(Int(n));
  }

  lemma OddCountAccepted(rt: Runtime, g: string, c: string, n: int, available: set<ColumnKey>)
    requires g != "" && c != "" && n != 0 && rt.str(Int(n)) != "" && Named(g) in available && Named(c) in available
    ensures CheckOperation(rt, OddCount(g, c, n), available) == Available({Named(g), Named(rt.str(Int(n)))})
  {
    OddMetricAccepted(rt, c, n, available);
    var op := OddCount(g, c, n);
    assert Names([Str(g)]) == [Named(g)] && ToSet([Named(g)]) == {Named(g)};
    assert op.parameters["group_by"].items == [Str(g)] && op.parameters["metrics"].items == [OddMetric(c, n)];
    assert AggregationAccepted(rt, op, available) && OperationAccepted(op);
    assert ToSet(op.sources) == {};
  }

  lemma OddMetricRead(rt: Runtime, c: string, n: int)
    ensures ParseMetrics(rt, [OddMetric(c, n)]).Ok?
    ensures Targets(ParseMetrics(rt, [OddMetric(c, n)]).value) == {KeyFor(Int(n))}
  {
    var m := OddMetric(c, n);
    var metric := Metric(Named(c), MetricText(rt, m, "column"), Str("count"), KeyFor(Int(n)), rt.str(Int(n)));
    assert [m][1..] == [] && ParseMetric(rt, m) == Ok(metric);
    assert ParseMetrics(rt, [m]) == Ok([metric] + []);
  }

  lemma OddCountGroups(rt: Runtime, g: string, c: string, n: int, table: Table)
    ensures ExecuteOperation(rt, OddCount(g, c, n), table)
         == ExecuteAggregate(rt, Grouping([Named(g)], [OddMetric(c, n)]), table)
  {
    assert NameList(List([Str(g)])).value == [Named(g)];
  }

  lemma OddCountRuns(rt: Runtime, g: string, c: string, n: int, table: Table)
    requires AllGroupable(table.rows, [Named(g)]) && table.rows != []
    ensures var r := ExecuteAggregate(rt, Grouping([Named(g)], [OddMetric(c, n)]), table);
      r.Ok? && r.value.rows != [] && Conforms(r.value.rows, {Named(g), KeyFor(Int(n))})
  {
    OddMetricRead(rt, c, n);
    OutputShape(rt, Grouping([Named(g)], [OddMetric(c, n)]), table);
    assert ToSet([Named(g)]) == {Named(g)};
  }

  lemma OutputShape(rt: Runtime, grouping: Grouping, table: Table)
    requires AllGroupable(table.rows, grouping.groupBy) && table.rows != []
    requires ParseMetrics(rt, grouping.items).Ok?
    ensures var r := ExecuteAggregate(rt, grouping, table);
      && r.Ok? && r.value.rows != []
      && Conforms(r.value.rows, ToSet(grouping.groupBy) + Targets(ParseMetrics(rt, grouping.items).value))
  {
    LabelsListed(rt, grouping.items);
    AggregateKeeps(rt, table.rows, grouping.groupBy, ParseMetrics(rt, grouping.items).value);
    SomeHead(table.rows, By(grouping.groupBy));
  }

  /** Counting into the number `n` and deduplicating on its text is accepted, and fails on every input. */
  lemma OddTargetMisses(rt: Runtime, g: string, c: string, n: int, table: Table, available: set<ColumnKey>)
    requires g != "" && c != "" && n != 0 && rt.str(Int(n)) != "" && Named(g) in available && Named(c) in available
    requires g != rt.str(Int(n)) && table.rows != [] && AllGroupable(table.rows, [Named(g)])
    ensures var x := Named(rt.str(Int(n)));
            var plan := [OddCount(g, c, n), Operation(Deduplicate, [x], None, map[])];
      && CheckOperations(rt, plan, available).Available?
      && ExecuteAll(rt, plan, table) == Err(MissingColumn(x))
  {
    var x := Named(rt.str(Int(n)));
    var count, dedupe := OddCount(g, c, n), Operation(Deduplicate, [x], None, map[]);
    OddCountAccepted(rt, g, c, n, available);
    DedupeAccepted(rt, x, {Named(g), x});
    OddCountLoses(rt, g, c, n, table);
    DedupeMisses(rt, ExecuteOperation(rt, count, table).value, x);
    SecondStepFails(rt, count, dedupe, table, available, {Named(g), x});
  }

  lemma OddCountLoses(rt: Runtime, g: string, c: string, n: int, table: Table)
    requires g != rt.str(Int(n)) && table.rows != [] && AllGroupable(table.rows, [Named(g)])
    ensures var r := ExecuteOperation(rt, OddCount(g, c, n), table);
      r.Ok? && r.value.rows != [] && Named(rt.str(Int(n))) !in r.value.rows[0]
  {
    OddCountGroups(rt, g, c, n, table);
    OddCountRuns(rt, g, c, n, table);
    var rows := ExecuteAggregate(rt, Grouping([Named(g)], [OddMetric(c, n)]), table).value.rows;
    assert rows[0] in rows;
  }

  // ----- the discipline is exact -----

  /** A table of one row of texts with exactly the given columns. */
  lemma {:induction false} Listing(columns: set<ColumnKey>) returns (xs: seq<ColumnKey>)
    ensures ToSet(xs) == columns
    decreases |columns|
  {
    if columns == {} {
      xs := [];
    } else {
      var c :| c in columns;
      var rest := Listing(columns - {c});
      xs := [c] + rest;
      assert ToSet(xs) == {c} + ToSet(rest);
    }
  }

  lemma {:induction false} TextRowFills(rt: Runtime, row: Row, columns: seq<ColumnKey>, strategy: string)
    requires forall c | c in columns :: c in row && row[c].Str?
    ensures FillColumns(rt, [row], columns, strategy) == Ok([row])
    decreases |columns|
  {
    if columns != [] {
      assert [row][1..] == [] && ColumnValues([], columns[0]) == Ok([]);
      assert ColumnValues([row], columns[0]) == Ok([row[columns[0]]] + []);
      var fill := FillValue(rt, [row], columns[0], strategy);
      assert fill.Ok? && FillColumn([row], columns[0], fill.value) == [row];
      TextRowFills(rt, row, columns[1..], strategy);
    }
  }

  lemma TextRowKept(rt: Runtime, row: Row, columns: seq<ColumnKey>)
    requires forall c | c in columns :: c in row
    ensures Dedupe(rt, [row], columns, {}) == Ok([row])
  {
    MarkerRead(rt, row, columns);
    var marker := Marker(rt, row, columns).value;
    assert [row][1..] == [] && Dedupe(rt, [], columns, {} + {marker}) == Ok([]);
    assert [row] + [] == [row];
  }

  lemma TextRowSurvives(rt: Runtime, op: Operation, table: Table, row: Row)
    requires IgnoresTarget(op.kind) && OperationAccepted(op) && table.rows == [row]
    requires forall c | c in op.sources || c in table.columns :: c in row && row[c].Str?
    ensures ExecuteOperation(rt, op, table).Ok? && ExecuteOperation(rt, op, table).value.rows != []
  {
    match op.kind {
      case Cast =>
      case FillMissing => TextRowFills(rt, row, op.sources, Text(rt, op.parameters["strategy"]));
      case Deduplicate =>
        TextRowKept(rt, row, if op.sources == [] then table.columns else op.sources);
      case Sort => SortKeeps(rt, [row], op.sources, Get(op.parameters, "direction") == Str("desc"));
    }
  }

  /** Every name a metric gives can be a key of a row. */
  predicate HashableNames(items: seq<Value>) {
    forall m, key | m in items && m.Dict? && key in m.entries && key in {"column", "target"} :: Hashable(m.entries[key])
  }

  lemma {:induction false} ColumnsRead(rt: Runtime, items: seq<Value>, available: set<ColumnKey>)
    requires AllAccepted(rt, items, available) && HashableNames(items)
    ensures if forall m | m in items :: HasColumn(m) then ParseMetrics(rt, items).Ok?
            else ParseMetrics(rt, items) == Err(MissingKey("column"))
  {
    if items != [] {
      assert items[0] in items;
      MetricRead(rt, items[0], available);
      ColumnsRead(rt, items[1..], available);
      assert forall m | m in items :: m == items[0] || m in items[1..];
    }
  }

  lemma AggregateFails(rt: Runtime, g: Grouping, table: Table, available: set<ColumnKey>)
    requires AllAccepted(rt, g.items, available) && HashableNames(g.items)
    requires table.rows != [] && AllGroupable(table.rows, g.groupBy)
    ensures (exists m | m in g.items :: !HasColumn(m)) ==> ExecuteAggregate(rt, g, table) == Err(MissingKey("column"))
    ensures (forall m | m in g.items :: HasColumn(m)) ==> ExecuteAggregate(rt, g, table).Ok?
  {
    ColumnsRead(rt, g.items, available);
    LabelsRead(rt, g.items, available);
  }

  lemma WindowStops(rt: Runtime, g: Grouping, table: Table, row: Row, m: Value, available: set<ColumnKey>)
    requires AllAccepted(rt, g.items, available) && HashableNames(g.items)
    requires table.rows == [row] && forall c | c in g.groupBy :: Get(row, c).Str?
    requires m in g.items
    requires !HasColumn(m) || (TextAt(m, "target") && Named(m.entries["target"].text) in g.groupBy)
    ensures ExecuteWindow(rt, g, table).Err? && !Allowed(ExecuteWindow(rt, g, table).error)
  {
    ColumnsRead(rt, g.items, available);
    if ParseMetrics(rt, g.items).Ok? {
      LabelsRead(rt, g.items, available);
      WindowFails(rt, g, row, m, available);
    }
  }

  lemma AggregateUndisciplined(rt: Runtime, op: Operation, table: Table, available: set<ColumnKey>)
    requires op.kind.Aggregate? && AggregationAccepted(rt, op, available)
    requires HashableNames(Items(op)) && !Disciplined(rt, op, available)
    requires table.rows != [] && AllGroupable(table.rows, Names(op.parameters["group_by"].items))
    ensures var r := ExecuteOperation(rt, op, table);
      if r.Err? then !Allowed(r.error) else exists m | m in Items(op) :: !TextAt(m, "target")
  {
    GroupingRead(rt, op, available);
    AggregateFails(rt, GroupingOf(op).value, table, available);
  }

  lemma WindowUndisciplined(rt: Runtime, op: Operation, table: Table, row: Row, available: set<ColumnKey>)
    requires op.kind.WindowAggregate? && AggregationAccepted(rt, op, available)
    requires HashableNames(Items(op)) && !Disciplined(rt, op, available)
    requires table.rows == [row] && forall c | c in Names(op.parameters["group_by"].items) :: Get(row, c).Str?
    ensures GroupingOf(op).Ok?
    ensures var r := ExecuteWindow(rt, GroupingOf(op).value, table); r.Err? && !Allowed(r.error)
  {
    GroupingRead(rt, op, available);
    var g := GroupingOf(op).value;
    var m :| m in g.items && !(HasColumn(m) && !OverwritesGroup(op, m));
    WindowStops(rt, g, table, row, m, available);
  }

  lemma WindowFails(rt: Runtime, g: Grouping, row: Row, m: Value, available: set<ColumnKey>)
    requires AllAccepted(rt, g.items, available) && ParseMetrics(rt, g.items).Ok? && m in g.items
    requires TextAt(m, "target") && Named(m.entries["target"].text) in g.groupBy
    requires forall c | c in g.groupBy :: Get(row, c).Str?
    ensures Windowed(rt, [row], g.groupBy, ParseMetrics(rt, g.items).value) == Err(MissingKey("group"))
  {
    var metrics := ParseMetrics(rt, g.items).value;
    var i :| 0 <= i < |g.items| && g.items[i] == m;
    MetricRead(rt, m, available);
    assert metrics[i] in metrics && metrics[i].target == Named(m.entries["target"].text);
    assert metrics[i].target in Targets(metrics) && metrics[i].target in (set c | c in g.groupBy);
    OverwrittenKeyIsLost(rt, row, g.groupBy, metrics);
    AttachError([row], By(g.groupBy), Index(By(g.groupBy), Labels(metrics), Aggregated(rt, [row], g.groupBy, metrics)));
  }

  ghost predicate AlwaysSound(rt: Runtime, op: Operation, available: set<ColumnKey>)
    requires CheckOperation(rt, op, available).Available?
  {
    forall table | Matches(table, available) ::
      Lineage.Sound(ExecuteOperation(rt, op, table), CheckOperation(rt, op, available).columns)
  }

  lemma WindowUnsound(rt: Runtime, op: Operation, table: Table, row: Row, available: set<ColumnKey>)
    requires op.kind.WindowAggregate? && CheckOperation(rt, op, available).Available?
    requires HashableNames(Items(op)) && !Disciplined(rt, op, available)
    requires table.rows == [row] && forall c | c in available :: Get(row, c).Str?
    ensures !Lineage.Sound(ExecuteOperation(rt, op, table), CheckOperation(rt, op, available).columns)
  {
    var groupBy := Names(op.parameters["group_by"].items);
    assert forall c | c in groupBy :: c in ToSet(groupBy);
    WindowUndisciplined(rt, op, table, row, available);
  }

  lemma AggregateUnsound(rt: Runtime, op: Operation, table: Table, row: Row, available: set<ColumnKey>)
    requires op.kind.Aggregate? && CheckOperation(rt, op, available).Available?
    requires HashableNames(Items(op)) && !Disciplined(rt, op, available)
    requires table.rows == [row] && forall c | c in available :: Get(row, c).Str?
    ensures !Lineage.Sound(ExecuteOperation(rt, op, table), CheckOperation(rt, op, available).columns)
  {
    var groupBy := Names(op.parameters["group_by"].items);
    assert forall c | c in groupBy :: c in ToSet(groupBy);
    AggregateUndisciplined(rt, op, table, available);
    if ExecuteOperation(rt, op, table).Ok? { AggregateColumnsIff(rt, op, table, available); }
  }

  lemma PhantomUndisciplined(rt: Runtime, op: Operation, table: Table, row: Row, available: set<ColumnKey>)
    requires IgnoresTarget(op.kind) && CheckOperation(rt, op, available).Available?
    requires !Disciplined(rt, op, available) && Matches(table, available)
    requires table.rows == [row] && forall c | c in available :: Get(row, c).Str?
    ensures !Lineage.Sound(ExecuteOperation(rt, op, table), CheckOperation(rt, op, available).columns)
  {
    assert forall c | c in table.columns :: c in ToSet(table.columns);
    assert forall c | c in op.sources :: c in ToSet(op.sources);
    TextRowSurvives(rt, op, table, row);
    PhantomTargetIff(rt, op, table, available);
  }

  lemma UndisciplinedFails(rt: Runtime, op: Operation, available: set<ColumnKey>)
    requires CheckOperation(rt, op, available).Available? && HashableNames(Items(op)) && !Disciplined(rt, op, available)
    ensures !AlwaysSound(rt, op, available)
  {
    var row := TextRow(available);
    var columns := Listing(available);
    var table := Table([row], columns);
    assert Matches(table, available);
    if IgnoresTarget(op.kind) {
      PhantomUndisciplined(rt, op, table, row, available);
    } else if op.kind.WindowAggregate? {
      WindowUnsound(rt, op, table, row, available);
    } else {
      AggregateUnsound(rt, op, table, row, available);
    }
  }

  /**
   An accepted operation leaves the computed columns, or stops for a reason other than a missing
   key, on every table with the columns before it if and only if it is disciplined.
   */
  lemma DisciplineIff(rt: Runtime, op: Operation, available: set<ColumnKey>)
    requires CheckOperation(rt, op, available).Available? && HashableNames(Items(op))
    ensures AlwaysSound(rt, op, available) <==> Disciplined(rt, op, available)
  {
    if Disciplined(rt, op, available) {
      forall table | Matches(table, available)
        ensures Lineage.Sound(ExecuteOperation(rt, op, table), CheckOperation(rt, op, available).columns)
      {
        OperationLineage(rt, op, table, available);
      }
    } else {
      UndisciplinedFails(rt, op, available);
    }
  }

  /**
   An accepted window attaches exactly what the check promised, on every input, if and only if every
   metric's column and target are texts and no target is a group column.
   */
  lemma WindowPromiseIff(rt: Runtime, op: Operation, available: set<ColumnKey>)
    requires AggregationAccepted(rt, op, available) && (forall c | c in available :: c.Named?)
    requires ParseMetrics(rt, Items(op)).Ok? && DistinctLabels(ParseMetrics(rt, Items(op)).value)
    ensures Delivers(rt, Names(op.parameters["group_by"].items), ParseMetrics(rt, Items(op)).value, available)
       <==> forall m | m in Items(op) :: TextAt(m, "column") && TextAt(m, "target") && !OverwritesGroup(op, m)
  {
    var items, groupBy := Items(op), Names(op.parameters["group_by"].items);
    var metrics := ParseMetrics(rt, items).value;
    forall i | 0 <= i < |items|
      ensures Coherent(metrics[i]) && Named(metrics[i].columnText) in available
      ensures NamedByText(metrics[i]) <==> TextAt(items[i], "column") && TextAt(items[i], "target")
      ensures metrics[i].target in groupBy <==> OverwritesGroup(op, items[i])
    {
      MetricRead(rt, items[i], available);
    }
    KeepsKeysIff(groupBy, metrics);
    WindowDeliversIff(rt, groupBy, metrics, available);
  }

  lemma KeepsKeysIff(groupBy: seq<ColumnKey>, metrics: seq<Metric>)
    ensures KeepsKeys(groupBy, metrics) <==> forall m | m in metrics :: m.target !in groupBy
  {
    if KeepsKeys(groupBy, metrics) {
      forall m | m in metrics ensures m.target !in groupBy { assert m.target in Targets(metrics); }
    }
  }
}
