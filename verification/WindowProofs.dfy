/**
 What group and window aggregation guarantee, proved about the specification functions that
 the loops of `Aggregation` refine.
 */
module WindowProofs {
  import opened Values
  import opened Aggregation

  // ----- groups -----

  ghost predicate DistinctKeys(rows: seq<Row>, keyOf: Row -> Key) {
    forall i, j | 0 <= i < j < |rows| :: keyOf(rows[i]) != keyOf(rows[j])
  }

  ghost predicate HasKey(rows: seq<Row>, keyOf: Row -> Key, key: Key) {
    exists row | row in rows :: keyOf(row) == key
  }

  lemma HasKeySnoc(rows: seq<Row>, row: Row, keyOf: Row -> Key, key: Key)
    ensures HasKey(rows + [row], keyOf, key) <==> HasKey(rows, keyOf, key) || keyOf(row) == key
  {
    assert row in rows + [row];
  }

  lemma {:induction false} NonemptyGroup(rows: seq<Row>, keyOf: Row -> Key, key: Key)
    ensures Members(rows, keyOf, key) != [] <==> HasKey(rows, keyOf, key)
  {
    if rows != [] {
      NonemptyGroup(rows[..|rows| - 1], keyOf, key);
      assert rows == rows[..|rows| - 1] + [rows[|rows| - 1]];
      HasKeySnoc(rows[..|rows| - 1], rows[|rows| - 1], keyOf, key);
    }
  }

  /** The heads carry exactly the keys of the rows, each once. */
  lemma {:induction false} HeadsEnumerateGroups(rows: seq<Row>, keyOf: Row -> Key)
    ensures forall key :: HasKey(Heads(rows, keyOf), keyOf, key) <==> HasKey(rows, keyOf, key)
    ensures DistinctKeys(Heads(rows, keyOf), keyOf)
  {
    if rows != [] {
      var earlier, last := rows[..|rows| - 1], rows[|rows| - 1];
      HeadsEnumerateGroups(earlier, keyOf);
      NonemptyGroup(earlier, keyOf, keyOf(last));
      assert rows == earlier + [last];
      var heads := Heads(earlier, keyOf);
      forall key ensures HasKey(Heads(rows, keyOf), keyOf, key) <==> HasKey(rows, keyOf, key) {
        HasKeySnoc(earlier, last, keyOf, key);
        HasKeySnoc(heads, last, keyOf, key);
      }
      if !HasKey(earlier, keyOf, keyOf(last)) {
        forall i | 0 <= i < |heads| ensures keyOf(heads[i]) != keyOf(last) { assert heads[i] in heads; }
      }
    }
  }

  // ----- conservation -----

  function Total(rows: seq<Row>, weight: Row -> real): real {
    if rows == [] then 0.0 else Total(rows[..|rows| - 1], weight) + weight(rows[|rows| - 1])
  }

  function GroupTotals(heads: seq<Row>, rows: seq<Row>, keyOf: Row -> Key, weight: Row -> real): real {
    if heads == [] then 0.0
    else
      GroupTotals(heads[..|heads| - 1], rows, keyOf, weight) +
      Total(Members(rows, keyOf, keyOf(heads[|heads| - 1])), weight)
  }

  lemma TotalSnoc(rows: seq<Row>, row: Row, keyOf: Row -> Key, key: Key, weight: Row -> real)
    ensures Total(Members(rows + [row], keyOf, key), weight)
         == Total(Members(rows, keyOf, key), weight) + (if keyOf(row) == key then weight(row) else 0.0)
  {
    assert (rows + [row])[..|rows|] == rows;
    var members := Members(rows, keyOf, key);
    if keyOf(row) == key { assert (members + [row])[..|members|] == members; }
  }

  lemma {:induction false} OneGroupGrows(
    heads: seq<Row>, rows: seq<Row>, row: Row, keyOf: Row -> Key, weight: Row -> real)
    requires DistinctKeys(heads, keyOf)
    ensures GroupTotals(heads, rows + [row], keyOf, weight) ==
      GroupTotals(heads, rows, keyOf, weight) + (if HasKey(heads, keyOf, keyOf(row)) then weight(row) else 0.0)
  {
    if heads != [] {
      var earlier, last := heads[..|heads| - 1], heads[|heads| - 1];
      OneGroupGrows(earlier, rows, row, keyOf, weight);
      TotalSnoc(rows, row, keyOf, keyOf(last), weight);
      assert heads == earlier + [last];
      HasKeySnoc(earlier, last, keyOf, keyOf(row));
      if HasKey(earlier, keyOf, keyOf(row)) {
        var i :| 0 <= i < |earlier| && keyOf(earlier[i]) == keyOf(row);
        assert keyOf(heads[i]) != keyOf(heads[|heads| - 1]);
      }
    }
  }

  /** Any additive quantity over the groups adds up to the quantity over all rows. */
  lemma {:induction false} GroupsPartitionRows(rows: seq<Row>, keyOf: Row -> Key, weight: Row -> real)
    ensures GroupTotals(Heads(rows, keyOf), rows, keyOf, weight) == Total(rows, weight)
  {
    if rows != [] {
      var earlier, last := rows[..|rows| - 1], rows[|rows| - 1];
      assert rows == earlier + [last];
      GroupsPartitionRows(earlier, keyOf, weight);
      HeadsEnumerateGroups(earlier, keyOf);
      NonemptyGroup(earlier, keyOf, keyOf(last));
      OneGroupGrows(Heads(earlier, keyOf), earlier, last, keyOf, weight);
      if !HasKey(earlier, keyOf, keyOf(last)) {
        NewGroupTotal(Heads(earlier, keyOf), earlier, last, keyOf, weight);
      }
    }
  }

  /** A row that opens a group adds its own weight. */
  lemma NewGroupTotal(heads: seq<Row>, rows: seq<Row>, row: Row, keyOf: Row -> Key, weight: Row -> real)
    requires Members(rows, keyOf, keyOf(row)) == []
    ensures GroupTotals(heads + [row], rows + [row], keyOf, weight)
         == GroupTotals(heads, rows + [row], keyOf, weight) + weight(row)
  {
    assert (heads + [row])[..|heads|] == heads;
    TotalSnoc(rows, row, keyOf, keyOf(row), weight);
  }

  function CountWeight(column: ColumnKey): Row -> real {
    (row: Row) => if Get(row, column) != Null then 1.0 else 0.0
  }

  function SumWeight(column: ColumnKey): Row -> real {
    (row: Row) => if IsNumber(Get(row, column)) then AsReal(Get(row, column)) else 0.0
  }

  lemma SumSnoc(numbers: seq<real>, n: real)
    ensures Sum(numbers + [n]) == Sum(numbers) + n
  {
    assert (numbers + [n])[..|numbers|] == numbers;
  }

  lemma NumbersSnoc(values: seq<Value>, v: Value)
    ensures Numbers(values + [v]) == Numbers(values) + (if IsNumber(v) then [AsReal(v)] else [])
  {
    assert (values + [v])[..|values|] == values;
  }

  lemma {:induction false} MetricsAreTotals(rows: seq<Row>, column: ColumnKey)
    ensures |Present(rows, column)| as real == Total(rows, CountWeight(column))
    ensures Sum(Numbers(Present(rows, column))) == Total(rows, SumWeight(column))
  {
    if rows != [] {
      var earlier, v := rows[..|rows| - 1], Get(rows[|rows| - 1], column);
      MetricsAreTotals(earlier, column);
      if v != Null {
        NumbersSnoc(Present(earlier, column), v);
        if IsNumber(v) { SumSnoc(Numbers(Present(earlier, column)), AsReal(v)); }
      }
    }
  }

  function GroupCounts(heads: seq<Row>, rows: seq<Row>, keyOf: Row -> Key, column: ColumnKey): int {
    if heads == [] then 0
    else
      GroupCounts(heads[..|heads| - 1], rows, keyOf, column) +
      |Present(Members(rows, keyOf, keyOf(heads[|heads| - 1])), column)|
  }

  function GroupSums(heads: seq<Row>, rows: seq<Row>, keyOf: Row -> Key, column: ColumnKey): real {
    if heads == [] then 0.0
    else
      GroupSums(heads[..|heads| - 1], rows, keyOf, column) +
      Sum(Numbers(Present(Members(rows, keyOf, keyOf(heads[|heads| - 1])), column)))
  }

  lemma {:induction false} GroupMetricsAreTotals(heads: seq<Row>, rows: seq<Row>, keyOf: Row -> Key, column: ColumnKey)
    ensures GroupCounts(heads, rows, keyOf, column) as real == GroupTotals(heads, rows, keyOf, CountWeight(column))
    ensures GroupSums(heads, rows, keyOf, column) == GroupTotals(heads, rows, keyOf, SumWeight(column))
  {
    if heads != [] {
      GroupMetricsAreTotals(heads[..|heads| - 1], rows, keyOf, column);
      MetricsAreTotals(Members(rows, keyOf, keyOf(heads[|heads| - 1])), column);
    }
  }

  /** Group counts and exact group sums of a column add up to the totals over all rows. */
  lemma AggregatesAddUp(rows: seq<Row>, groupBy: seq<ColumnKey>, column: ColumnKey)
    ensures var keyOf := By(groupBy);
      && GroupCounts(Heads(rows, keyOf), rows, keyOf, column) == |Present(rows, column)|
      && GroupSums(Heads(rows, keyOf), rows, keyOf, column) == Sum(Numbers(Present(rows, column)))
  {
    var keyOf := By(groupBy);
    GroupMetricsAreTotals(Heads(rows, keyOf), rows, keyOf, column);
    GroupsPartitionRows(rows, keyOf, CountWeight(column));
    GroupsPartitionRows(rows, keyOf, SumWeight(column));
    MetricsAreTotals(rows, column);
  }

  // ----- output rows -----

  lemma {:induction false} ZipGet(row: Row, groupBy: seq<ColumnKey>)
    ensures Zip(groupBy, RawKey(row, groupBy)).Keys == set c | c in groupBy
    ensures forall c | c in groupBy :: Zip(groupBy, RawKey(row, groupBy))[c] == Get(row, c)
  {
    if groupBy != [] {
      var n := |groupBy| - 1;
      ZipGet(row, groupBy[..n]);
      assert RawKey(row, groupBy)[..n] == RawKey(row, groupBy[..n]);
      assert forall c | c in groupBy :: c in groupBy[..n] || c == groupBy[n];
    }
  }

  lemma {:induction false} MetricKeys(rt: Runtime, metrics: seq<Metric>, members: seq<Row>)
    ensures MetricValues(rt, metrics, members).Keys == Targets(metrics)
    ensures forall t | t in MetricValues(rt, metrics, members) ::
      exists m | m in metrics :: m.target == t && MetricValues(rt, metrics, members)[t] == MetricValue(rt, m, members)
  {
    if metrics != [] {
      MetricKeys(rt, metrics[..|metrics| - 1], members);
      assert forall m | m in metrics :: m in metrics[..|metrics| - 1] || m == metrics[|metrics| - 1];
    }
  }

  ghost predicate KeepsKeys(groupBy: seq<ColumnKey>, metrics: seq<Metric>) {
    Targets(metrics) !! (set c | c in groupBy)
  }

  /** An output row has the group columns and the metrics; a metric wins over a group column. */
  lemma GroupRowCells(rt: Runtime, rows: seq<Row>, groupBy: seq<ColumnKey>, metrics: seq<Metric>, head: Row)
    ensures var out := GroupRow(rt, rows, groupBy, metrics, head);
            var computed := MetricValues(rt, metrics, Members(rows, By(groupBy), KeyOf(head, groupBy)));
      && out.Keys == (set c | c in groupBy) + Targets(metrics)
      && (forall k | k in Targets(metrics) || k !in groupBy :: Get(out, k) == Get(computed, k))
      && (forall k | k in groupBy && k !in Targets(metrics) :: Get(out, k) == Get(head, k))
  {
    ZipGet(head, groupBy);
    MetricKeys(rt, metrics, Members(rows, By(groupBy), KeyOf(head, groupBy)));
  }

  lemma GroupRowCell(
    rt: Runtime, rows: seq<Row>, groupBy: seq<ColumnKey>, metrics: seq<Metric>, head: Row, c: ColumnKey)
    requires c in groupBy
    ensures Get(GroupRow(rt, rows, groupBy, metrics, head), c)
         == if c in Targets(metrics)
           then Get(MetricValues(rt, metrics, Members(rows, By(groupBy), KeyOf(head, groupBy))), c)
            else Get(head, c)
  {
    GroupRowCells(rt, rows, groupBy, metrics, head);
  }

  lemma GroupRowKey(rt: Runtime, rows: seq<Row>, groupBy: seq<ColumnKey>, metrics: seq<Metric>, head: Row)
    requires KeepsKeys(groupBy, metrics)
    ensures KeyOf(GroupRow(rt, rows, groupBy, metrics, head), groupBy) == KeyOf(head, groupBy)
  {
    GroupRowCells(rt, rows, groupBy, metrics, head);
    var out := GroupRow(rt, rows, groupBy, metrics, head);
    forall i | 0 <= i < |groupBy| ensures Get(out, groupBy[i]) == Get(head, groupBy[i]) {
      assert groupBy[i] in (set c | c in groupBy);
    }
  }

  // ----- the cells of the output rows add up -----

  /** No later metric has the target of metric `k`. */
  predicate LastOfTarget(metrics: seq<Metric>, k: nat)
    requires k < |metrics|
  {
    forall j | k < j < |metrics| :: metrics[j].target != metrics[k].target
  }

  lemma {:induction false} LastMetricWins(rt: Runtime, metrics: seq<Metric>, members: seq<Row>, k: nat)
    requires k < |metrics| && LastOfTarget(metrics, k)
    ensures Get(MetricValues(rt, metrics, members), metrics[k].target) == MetricValue(rt, metrics[k], members)
  {
    if k < |metrics| - 1 { LastMetricWins(rt, metrics[..|metrics| - 1], members, k); }
  }

  /** The sum of a column's numbers, an empty cell counting as none. */
  function CellTotal(rows: seq<Row>, column: ColumnKey): real { Total(rows, SumWeight(column)) }

  predicate Additive(metric: Metric) { metric.measure == Str("count") || metric.measure == Str("sum") }

  /** What an additive metric counts of one row. */
  function InputWeight(metric: Metric): Row -> real {
    if metric.measure == Str("count") then CountWeight(metric.column) else SumWeight(metric.column)
  }

  lemma MetricCell(rt: Runtime, metric: Metric, members: seq<Row>)
    requires Additive(metric)
    ensures var cell := MetricValue(rt, metric, members);
      (if IsNumber(cell) then AsReal(cell) else 0.0) == Total(members, InputWeight(metric))
  {
    MetricsAreTotals(members, metric.column);
  }

  lemma OutputCell(rt: Runtime, rows: seq<Row>, groupBy: seq<ColumnKey>, metrics: seq<Metric>, k: nat, head: Row)
    requires k < |metrics| && LastOfTarget(metrics, k) && Additive(metrics[k])
    ensures SumWeight(metrics[k].target)(GroupRow(rt, rows, groupBy, metrics, head))
         == Total(Members(rows, By(groupBy), KeyOf(head, groupBy)), InputWeight(metrics[k]))
  {
    var members := Members(rows, By(groupBy), KeyOf(head, groupBy));
    assert metrics[k].target in Targets(metrics) by { assert metrics[k] in metrics; }
    GroupRowCells(rt, rows, groupBy, metrics, head);
    LastMetricWins(rt, metrics, members, k);
    MetricCell(rt, metrics[k], members);
  }

  lemma {:induction false} OneRowPerGroup(
    heads: seq<Row>, outs: seq<Row>, rows: seq<Row>, keyOf: Row -> Key, cell: Row -> real, weight: Row -> real)
    requires |outs| == |heads|
    requires forall i | 0 <= i < |heads| :: cell(outs[i]) == Total(Members(rows, keyOf, keyOf(heads[i])), weight)
    ensures Total(outs, cell) == GroupTotals(heads, rows, keyOf, weight)
  {
    if heads != [] {
      var n := |heads| - 1;
      OneRowPerGroup(heads[..n], outs[..n], rows, keyOf, cell, weight);
    }
  }

  /**
   The cells of a count or sum metric in the output rows add up to the count or exact sum of its
   column over all rows, unless a later metric has the same target.
   */
  lemma OutputCellsAddUp(rt: Runtime, rows: seq<Row>, groupBy: seq<ColumnKey>, metrics: seq<Metric>, k: nat)
    requires k < |metrics| && LastOfTarget(metrics, k) && Additive(metrics[k])
    ensures CellTotal(Aggregated(rt, rows, groupBy, metrics), metrics[k].target)
         == var values := Present(rows, metrics[k].column);
            if metrics[k].measure == Str("count") then |values| as real else Sum(Numbers(values))
  {
    var keyOf, weight := By(groupBy), InputWeight(metrics[k]);
    var heads, outs := Heads(rows, keyOf), Aggregated(rt, rows, groupBy, metrics);
    forall i | 0 <= i < |heads|
      ensures SumWeight(metrics[k].target)(outs[i]) == Total(Members(rows, keyOf, keyOf(heads[i])), weight)
    {
      OutputCell(rt, rows, groupBy, metrics, k, heads[i]);
    }
    OneRowPerGroup(heads, outs, rows, keyOf, SumWeight(metrics[k].target), weight);
    GroupsPartitionRows(rows, keyOf, weight);
    MetricsAreTotals(rows, metrics[k].column);
  }

  // ----- output keys -----

  /** When no metric overwrites a group column, the output rows carry exactly the input's keys, each once. */
  lemma OutputKeysDistinct(rt: Runtime, rows: seq<Row>, groupBy: seq<ColumnKey>, metrics: seq<Metric>)
    requires KeepsKeys(groupBy, metrics)
    ensures DistinctKeys(Aggregated(rt, rows, groupBy, metrics), By(groupBy))
    ensures forall key ::
      HasKey(Aggregated(rt, rows, groupBy, metrics), By(groupBy), key) <==> HasKey(rows, By(groupBy), key)
  {
    var keyOf := By(groupBy);
    var heads, outs := Heads(rows, keyOf), Aggregated(rt, rows, groupBy, metrics);
    HeadsEnumerateGroups(rows, keyOf);
    forall i | 0 <= i < |heads| ensures keyOf(outs[i]) == keyOf(heads[i]) {
      GroupRowKey(rt, rows, groupBy, metrics, heads[i]);
    }
    SameKeys(heads, outs, keyOf);
  }

  lemma SameKeys(heads: seq<Row>, outs: seq<Row>, keyOf: Row -> Key)
    requires |heads| == |outs| && forall i | 0 <= i < |heads| :: keyOf(outs[i]) == keyOf(heads[i])
    ensures forall key :: HasKey(heads, keyOf, key) <==> HasKey(outs, keyOf, key)
    ensures DistinctKeys(heads, keyOf) <==> DistinctKeys(outs, keyOf)
  {
    forall key ensures HasKey(heads, keyOf, key) <==> HasKey(outs, keyOf, key) {
      if HasKey(heads, keyOf, key) {
        var i :| 0 <= i < |heads| && keyOf(heads[i]) == key;
        assert outs[i] in outs;
      }
      if HasKey(outs, keyOf, key) {
        var i :| 0 <= i < |outs| && keyOf(outs[i]) == key;
        assert heads[i] in heads;
      }
    }
    if !DistinctKeys(heads, keyOf) {
      var i, j :| 0 <= i < j < |heads| && keyOf(heads[i]) == keyOf(heads[j]);
      assert keyOf(outs[i]) == keyOf(outs[j]);
    }
  }

  // ----- window aggregation meets its definition -----

  lemma {:induction false} IndexKeys(keyOf: Row -> Key, labels: set<ColumnKey>, grouped: seq<Row>)
    ensures forall key :: key in Index(keyOf, labels, grouped) <==> HasKey(grouped, keyOf, key)
  {
    if grouped != [] {
      var earlier, last := grouped[..|grouped| - 1], grouped[|grouped| - 1];
      IndexKeys(keyOf, labels, earlier);
      assert grouped == earlier + [last];
      forall key { HasKeySnoc(earlier, last, keyOf, key); }
    }
  }

  lemma {:induction false} IndexHolds(
    keyOf: Row -> Key, labels: set<ColumnKey>, grouped: seq<Row>, valuesOf: Key -> Row)
    requires forall g | g in grouped :: (map t | t in labels :: Get(g, t)) == valuesOf(keyOf(g))
    ensures forall key | key in Index(keyOf, labels, grouped) :: Index(keyOf, labels, grouped)[key] == valuesOf(key)
  {
    if grouped != [] { IndexHolds(keyOf, labels, grouped[..|grouped| - 1], valuesOf); }
  }

  lemma {:induction false} AttachAll(rows: seq<Row>, keyOf: Row -> Key, index: map<Key, Row>)
    requires forall row | row in rows :: keyOf(row) in index
    ensures Attach(rows, keyOf, index).Ok? && |Attach(rows, keyOf, index).value| == |rows|
    ensures forall i | 0 <= i < |rows| ::
      keyOf(rows[i]) in index && Attach(rows, keyOf, index).value[i] == rows[i] + index[keyOf(rows[i])]
  {
    if rows != [] {
      assert rows[|rows| - 1] in rows;
      AttachAll(rows[..|rows| - 1], keyOf, index);
    }
  }

  /** When no metric overwrites a group column, every row finds its group again. */
  lemma WindowLooksUp(rt: Runtime, rows: seq<Row>, groupBy: seq<ColumnKey>, metrics: seq<Metric>)
    requires KeepsKeys(groupBy, metrics)
    ensures var index := Index(By(groupBy), Labels(metrics), Aggregated(rt, rows, groupBy, metrics));
      forall row | row in rows :: By(groupBy)(row) in index
  {
    OutputKeysDistinct(rt, rows, groupBy, metrics);
    IndexKeys(By(groupBy), Labels(metrics), Aggregated(rt, rows, groupBy, metrics));
    forall row | row in rows ensures HasKey(rows, By(groupBy), By(groupBy)(row)) {}
  }

  ghost predicate LabelsApart(groupBy: seq<ColumnKey>, metrics: seq<Metric>) {
    Labels(metrics) !! (set c | c in groupBy)
  }

  lemma AttachedValues(rt: Runtime, rows: seq<Row>, groupBy: seq<ColumnKey>, metrics: seq<Metric>, head: Row)
    requires LabelsApart(groupBy, metrics)
    ensures (map t | t in Labels(metrics) :: Get(GroupRow(rt, rows, groupBy, metrics, head), t))
         == WindowValues(rt, metrics, Members(rows, By(groupBy), KeyOf(head, groupBy)))
  {
    GroupRowCells(rt, rows, groupBy, metrics, head);
    assert forall t | t in Labels(metrics) :: t !in (set c | c in groupBy);
  }

  lemma IndexedValues(rt: Runtime, rows: seq<Row>, groupBy: seq<ColumnKey>, metrics: seq<Metric>)
    requires KeepsKeys(groupBy, metrics) && LabelsApart(groupBy, metrics)
    ensures var index := Index(By(groupBy), Labels(metrics), Aggregated(rt, rows, groupBy, metrics));
      forall key | key in index :: index[key] == WindowValues(rt, metrics, Members(rows, By(groupBy), key))
  {
    var keyOf := By(groupBy);
    var heads, grouped := Heads(rows, keyOf), Aggregated(rt, rows, groupBy, metrics);
    var valuesOf := (key: Key) => WindowValues(rt, metrics, Members(rows, keyOf, key));
    forall g | g in grouped ensures (map t | t in Labels(metrics) :: Get(g, t)) == valuesOf(keyOf(g)) {
      var i :| 0 <= i < |grouped| && grouped[i] == g;
      GroupRowKey(rt, rows, groupBy, metrics, heads[i]);
      AttachedValues(rt, rows, groupBy, metrics, heads[i]);
    }
    IndexHolds(keyOf, Labels(metrics), grouped, valuesOf);
  }

  /** Each row keeps its place and its other columns and gains what is computed over its own group. */
  lemma WindowMeetsDefinition(rt: Runtime, rows: seq<Row>, groupBy: seq<ColumnKey>, metrics: seq<Metric>)
    requires KeepsKeys(groupBy, metrics) && LabelsApart(groupBy, metrics)
    ensures Windowed(rt, rows, groupBy, metrics) == Ok(WindowDefinition(rt, rows, groupBy, metrics))
  {
    var index := Index(By(groupBy), Labels(metrics), Aggregated(rt, rows, groupBy, metrics));
    WindowLooksUp(rt, rows, groupBy, metrics);
    IndexedValues(rt, rows, groupBy, metrics);
    AttachAll(rows, By(groupBy), index);
    assert Attach(rows, By(groupBy), index).value == WindowDefinition(rt, rows, groupBy, metrics);
  }

  ghost predicate Conforms(rows: seq<Row>, columns: set<ColumnKey>) {
    forall row | row in rows :: row.Keys == columns
  }

  ghost predicate WindowSafe(rt: Runtime, rows: seq<Row>, groupBy: seq<ColumnKey>, metrics: seq<Metric>) {
    Windowed(rt, rows, groupBy, metrics).Ok?
  }

  lemma MetricIsNotText(rt: Runtime, metrics: seq<Metric>, members: seq<Row>, t: ColumnKey)
    requires t in Targets(metrics)
    ensures t in MetricValues(rt, metrics, members) && !MetricValues(rt, metrics, members)[t].Str?
  {
    MetricKeys(rt, metrics, members);
    var values := MetricValues(rt, metrics, members);
    assert t in values;
    var m :| m in metrics && m.target == t && values[t] == MetricValue(rt, m, members);
    MetricNeverText(rt, m, members);
  }

  lemma MetricNeverText(rt: Runtime, m: Metric, members: seq<Row>)
    ensures !MetricValue(rt, m, members).Str?
  {}

  lemma OverwrittenKeyChanges(rt: Runtime, row: Row, groupBy: seq<ColumnKey>, metrics: seq<Metric>, t: ColumnKey)
    requires t in Targets(metrics) && t in groupBy && Get(row, t).Str?
    ensures KeyOf(GroupRow(rt, [row], groupBy, metrics, row), groupBy) != KeyOf(row, groupBy)
  {
    MetricIsNotText(rt, metrics, Members([row], By(groupBy), KeyOf(row, groupBy)), t);
    var out := GroupRow(rt, [row], groupBy, metrics, row);
    var i :| 0 <= i < |groupBy| && groupBy[i] == t;
    assert KeyOf(out, groupBy)[i] == Canon(Get(out, t)) && KeyOf(row, groupBy)[i] == Canon(Get(row, t));
  }

  lemma SingleGroup(rt: Runtime, row: Row, groupBy: seq<ColumnKey>, metrics: seq<Metric>)
    ensures Aggregated(rt, [row], groupBy, metrics) == [GroupRow(rt, [row], groupBy, metrics, row)]
  {
    assert [row][..0] == [];
    assert Heads([row], By(groupBy)) == [] + [row];
  }

  lemma SingleIndex(keyOf: Row -> Key, labels: set<ColumnKey>, out: Row)
    ensures Index(keyOf, labels, [out]).Keys == {keyOf(out)}
    ensures Index(keyOf, labels, [out])[keyOf(out)] == map t | t in labels :: Get(out, t)
  {
    assert [out][..0] == [] && Index(keyOf, labels, []) == map[];
  }

  lemma OverwrittenKeyIsLost(rt: Runtime, row: Row, groupBy: seq<ColumnKey>, metrics: seq<Metric>)
    requires !KeepsKeys(groupBy, metrics)
    requires forall c | c in groupBy :: Get(row, c).Str?
    ensures !WindowSafe(rt, [row], groupBy, metrics)
  {
    var keyOf := By(groupBy);
    SingleGroup(rt, row, groupBy, metrics);
    var t :| t in Targets(metrics) && t in (set c | c in groupBy);
    OverwrittenKeyChanges(rt, row, groupBy, metrics, t);
    SingleIndex(keyOf, Labels(metrics), GroupRow(rt, [row], groupBy, metrics, row));
    AttachFails([row], keyOf, Index(keyOf, Labels(metrics), Aggregated(rt, [row], groupBy, metrics)), 0);
  }

  ghost predicate AlwaysSafe(rt: Runtime, groupBy: seq<ColumnKey>, metrics: seq<Metric>, columns: set<ColumnKey>) {
    forall rows | Conforms(rows, columns) && AllGroupable(rows, groupBy) :: WindowSafe(rt, rows, groupBy, metrics)
  }

  function TextRow(columns: set<ColumnKey>): (row: Row)
    ensures row.Keys == columns && forall c | c in columns :: Get(row, c) == Str("x")
  {
    map c | c in columns :: Str("x")
  }

  lemma UnsafeSomewhere(rt: Runtime, groupBy: seq<ColumnKey>, metrics: seq<Metric>, columns: set<ColumnKey>)
    requires (set c | c in groupBy) <= columns && !KeepsKeys(groupBy, metrics)
    ensures !AlwaysSafe(rt, groupBy, metrics, columns)
  {
    var row := TextRow(columns);
    forall c | c in groupBy ensures Get(row, c) == Str("x") { assert c in (set d | d in groupBy); }
    var rows := [row];
    assert Conforms(rows, columns) && AllGroupable(rows, groupBy);
    if AlwaysSafe(rt, groupBy, metrics, columns) {
      assert WindowSafe(rt, rows, groupBy, metrics);
      OverwrittenKeyIsLost(rt, row, groupBy, metrics);
    }
  }

  /**
   A window aggregation over columns `columns` looks up every group it made, on every input,
   exactly when no metric target is one of its own group columns.
   */
  lemma WindowSafeIff(rt: Runtime, groupBy: seq<ColumnKey>, metrics: seq<Metric>, columns: set<ColumnKey>)
    requires (set c | c in groupBy) <= columns
    ensures AlwaysSafe(rt, groupBy, metrics, columns) <==> KeepsKeys(groupBy, metrics)
  {
    if KeepsKeys(groupBy, metrics) {
      forall rows | Conforms(rows, columns) && AllGroupable(rows, groupBy)
        ensures WindowSafe(rt, rows, groupBy, metrics)
      {
        WindowLooksUp(rt, rows, groupBy, metrics);
        AttachAll(rows, By(groupBy), Index(By(groupBy), Labels(metrics), Aggregated(rt, rows, groupBy, metrics)));
      }
    } else {
      UnsafeSomewhere(rt, groupBy, metrics, columns);
    }
  }

  // ----- the definition, exactly -----

  ghost predicate AlwaysMeets(rt: Runtime, groupBy: seq<ColumnKey>, metrics: seq<Metric>, columns: set<ColumnKey>) {
    forall rows | Conforms(rows, columns) && AllGroupable(rows, groupBy) ::
      Windowed(rt, rows, groupBy, metrics) == Ok(WindowDefinition(rt, rows, groupBy, metrics))
  }

  lemma SingleMember(row: Row, groupBy: seq<ColumnKey>)
    ensures Members([row], By(groupBy), KeyOf(row, groupBy)) == [row]
  {
    assert [row][..0] == [];
  }

  /** Over one row the window attaches what is found under each label in that row's output row. */
  lemma SingleWindow(rt: Runtime, row: Row, groupBy: seq<ColumnKey>, metrics: seq<Metric>)
    requires KeepsKeys(groupBy, metrics)
    ensures var out := GroupRow(rt, [row], groupBy, metrics, row);
      Windowed(rt, [row], groupBy, metrics) == Ok([row + map t | t in Labels(metrics) :: Get(out, t)])
  {
    var keyOf, out := By(groupBy), GroupRow(rt, [row], groupBy, metrics, row);
    SingleGroup(rt, row, groupBy, metrics);
    GroupRowKey(rt, [row], groupBy, metrics, row);
    SingleIndex(keyOf, Labels(metrics), out);
    var index := Index(keyOf, Labels(metrics), [out]);
    AttachAll([row], keyOf, index);
    assert Attach([row], keyOf, index).value == [row + index[keyOf(row)]];
  }

  /** A label among the group columns attaches the group column itself. */
  lemma KeyCellKept(rt: Runtime, row: Row, groupBy: seq<ColumnKey>, metrics: seq<Metric>, t: ColumnKey)
    requires KeepsKeys(groupBy, metrics) && t in Labels(metrics) && t in groupBy
    ensures Windowed(rt, [row], groupBy, metrics).Ok? && |Windowed(rt, [row], groupBy, metrics).value| == 1
    ensures Get(Windowed(rt, [row], groupBy, metrics).value[0], t) == Get(row, t) && t !in Targets(metrics)
  {
    assert t in (set c | c in groupBy);
    SingleWindow(rt, row, groupBy, metrics);
    GroupRowCell(rt, [row], groupBy, metrics, row, t);
  }

  lemma KeyCellIsNoMetric(rt: Runtime, groupBy: seq<ColumnKey>, metrics: seq<Metric>, row: Row, t: ColumnKey)
    requires KeepsKeys(groupBy, metrics) && t in Labels(metrics) && t in groupBy && Get(row, t).Str?
    ensures Windowed(rt, [row], groupBy, metrics) != Ok(WindowDefinition(rt, [row], groupBy, metrics))
  {
    KeyCellKept(rt, row, groupBy, metrics, t);
    SingleMember(row, groupBy);
    MetricKeys(rt, metrics, [row]);
    assert Get(WindowDefinition(rt, [row], groupBy, metrics)[0], t) == Null;
  }

  /** A window computes its definition on every input exactly when neither targets nor labels are group columns. */
  lemma WindowDefinitionIff(rt: Runtime, groupBy: seq<ColumnKey>, metrics: seq<Metric>, columns: set<ColumnKey>)
    requires (set c | c in groupBy) <= columns
    ensures AlwaysMeets(rt, groupBy, metrics, columns)
       <==> KeepsKeys(groupBy, metrics) && LabelsApart(groupBy, metrics)
  {
    var row := TextRow(columns);
    TextRowsFit([row], groupBy, columns);
    if !KeepsKeys(groupBy, metrics) {
      TextKeys(groupBy, columns);
      OverwrittenKeyIsLost(rt, row, groupBy, metrics);
    } else if !LabelsApart(groupBy, metrics) {
      var t :| t in Labels(metrics) && t in (set c | c in groupBy);
      KeyCellIsNoMetric(rt, groupBy, metrics, row, t);
    } else {
      forall rows ensures Windowed(rt, rows, groupBy, metrics) == Ok(WindowDefinition(rt, rows, groupBy, metrics)) {
        WindowMeetsDefinition(rt, rows, groupBy, metrics);
      }
    }
  }

  lemma TextKeys(groupBy: seq<ColumnKey>, columns: set<ColumnKey>)
    requires (set c | c in groupBy) <= columns
    ensures forall c | c in groupBy :: Get(TextRow(columns), c).Str?
  {
    forall c | c in groupBy ensures Get(TextRow(columns), c).Str? { assert c in (set d | d in groupBy); }
  }

  // ----- distinct output keys, exactly -----

  ghost predicate AlwaysDistinct(rt: Runtime, groupBy: seq<ColumnKey>, metrics: seq<Metric>, columns: set<ColumnKey>) {
    forall rows | Conforms(rows, columns) && AllGroupable(rows, groupBy) ::
      DistinctKeys(Aggregated(rt, rows, groupBy, metrics), By(groupBy))
  }

  /** Rows of texts with the same columns have the same metrics, each over itself alone. */
  lemma {:induction false} TextMetricsEqual(rt: Runtime, metrics: seq<Metric>, a: Row, b: Row)
    requires a.Keys == b.Keys && forall c | c in a :: a[c].Str? && b[c].Str?
    ensures MetricValues(rt, metrics, [a]) == MetricValues(rt, metrics, [b])
  {
    if metrics != [] {
      TextMetricsEqual(rt, metrics[..|metrics| - 1], a, b);
      TextMetricEqual(rt, metrics[|metrics| - 1], a, b);
    }
  }

  lemma TextMetricEqual(rt: Runtime, metric: Metric, a: Row, b: Row)
    requires a.Keys == b.Keys && forall c | c in a :: a[c].Str? && b[c].Str?
    ensures MetricValue(rt, metric, [a]) == MetricValue(rt, metric, [b])
  {
    SingleMetric(rt, metric, a);
    SingleMetric(rt, metric, b);
  }

  /** A metric over one row, from that row's cell alone. */
  function SingleValue(measure: Value, cell: Value): Value {
    if measure == Str("count") || measure == Str("count_distinct") then Int(if cell == Null then 0 else 1)
    else if IsNumber(cell) then Float(AsReal(cell))
    else Null
  }

  lemma SingleMetric(rt: Runtime, metric: Metric, row: Row)
    ensures MetricValue(rt, metric, [row]) == SingleValue(metric.measure, Get(row, metric.column))
  {
    var cell, values := Get(row, metric.column), Present([row], metric.column);
    SinglePresent(row, metric.column);
    if metric.measure == Str("count_distinct") {
      SingleSize(rt, values);
    } else if IsNumber(cell) {
      SingleNumber(AsReal(cell));
    }
  }

  lemma SingleNumber(x: real)
    ensures Sum([x]) == x && Least([x]) == x && Greatest([x]) == x
  {
    assert [x][..0] == [];
  }

  lemma SinglePresent(row: Row, column: ColumnKey)
    ensures Present([row], column) == if Get(row, column) == Null then [] else [Get(row, column)]
    ensures Numbers(Present([row], column)) == if IsNumber(Get(row, column)) then [AsReal(Get(row, column))] else []
  {
    assert [row][..0] == [];
    assert [Get(row, column)][..0] == [];
  }

  lemma SingleSize(rt: Runtime, values: seq<Value>)
    requires |values| <= 1
    ensures |set v | v in values :: rt.repr(v)| == |values|
  {
    if |values| == 1 {
      assert (set v | v in values :: rt.repr(v)) == {rt.repr(values[0])};
    } else {
      assert (set v | v in values :: rt.repr(v)) == {};
    }
  }

  /** Two one-row groups that differ only in an overwritten column get equal output keys. */
  lemma OutputKeysCoincide(
    rt: Runtime, rows: seq<Row>, groupBy: seq<ColumnKey>, metrics: seq<Metric>, a: Row, b: Row, t: ColumnKey)
    requires t in Targets(metrics) && MetricValues(rt, metrics, [a]) == MetricValues(rt, metrics, [b])
    requires Members(rows, By(groupBy), KeyOf(a, groupBy)) == [a]
    requires Members(rows, By(groupBy), KeyOf(b, groupBy)) == [b]
    requires forall c | c != t :: Get(a, c) == Get(b, c)
    ensures KeyOf(GroupRow(rt, rows, groupBy, metrics, a), groupBy)
         == KeyOf(GroupRow(rt, rows, groupBy, metrics, b), groupBy)
  {
    var x, y := GroupRow(rt, rows, groupBy, metrics, a), GroupRow(rt, rows, groupBy, metrics, b);
    forall j | 0 <= j < |groupBy| ensures Get(x, groupBy[j]) == Get(y, groupBy[j]) {
      var c := groupBy[j];
      GroupRowCell(rt, rows, groupBy, metrics, a, c);
      GroupRowCell(rt, rows, groupBy, metrics, b, c);
    }
  }

  lemma TwoGroups(a: Row, b: Row, keyOf: Row -> Key)
    requires keyOf(a) != keyOf(b)
    ensures Heads([a, b], keyOf) == [a, b]
    ensures Members([a, b], keyOf, keyOf(a)) == [a] && Members([a, b], keyOf, keyOf(b)) == [b]
  {
    assert [a, b][..1] == [a] && [a][..0] == [];
    assert Members([a], keyOf, keyOf(a)) == [a] && Members([a], keyOf, keyOf(b)) == [];
    assert Members([], keyOf, keyOf(a)) == [] && Heads([a], keyOf) == [a];
    assert Heads([a, b], keyOf) == [a] + [b];
  }

  lemma RepeatedKey(outs: seq<Row>, keyOf: Row -> Key)
    requires |outs| == 2 && keyOf(outs[0]) == keyOf(outs[1])
    ensures !DistinctKeys(outs, keyOf)
  {}

  lemma TwoOutputs(rt: Runtime, groupBy: seq<ColumnKey>, metrics: seq<Metric>, a: Row, b: Row)
    requires Heads([a, b], By(groupBy)) == [a, b]
    ensures Aggregated(rt, [a, b], groupBy, metrics)
         == [GroupRow(rt, [a, b], groupBy, metrics, a), GroupRow(rt, [a, b], groupBy, metrics, b)]
  {}

  lemma KeysDiffer(a: Row, b: Row, groupBy: seq<ColumnKey>, t: ColumnKey)
    requires t in groupBy && Canon(Get(a, t)) != Canon(Get(b, t))
    ensures KeyOf(a, groupBy) != KeyOf(b, groupBy)
  {
    var i :| 0 <= i < |groupBy| && groupBy[i] == t;
    assert KeyOf(a, groupBy)[i] == Canon(Get(a, t)) && KeyOf(b, groupBy)[i] == Canon(Get(b, t));
  }

  /** Two rows of texts that differ only in an overwritten group column make two equal output keys. */
  lemma OverwrittenKeysRepeat(rt: Runtime, groupBy: seq<ColumnKey>, metrics: seq<Metric>, a: Row, t: ColumnKey)
    requires t in groupBy && t in Targets(metrics) && t in a && forall c | c in a :: a[c] == Str("x")
    ensures !DistinctKeys(Aggregated(rt, [a, a[t := Str("y")]], groupBy, metrics), By(groupBy))
  {
    var b := a[t := Str("y")];
    KeysDiffer(a, b, groupBy, t);
    TwoGroups(a, b, By(groupBy));
    TextMetricsEqual(rt, metrics, a, b);
    OutputKeysCoincide(rt, [a, b], groupBy, metrics, a, b, t);
    TwoOutputs(rt, groupBy, metrics, a, b);
    RepeatedKey(Aggregated(rt, [a, b], groupBy, metrics), By(groupBy));
  }

  lemma TextRowsFit(rows: seq<Row>, groupBy: seq<ColumnKey>, columns: set<ColumnKey>)
    requires forall row | row in rows :: row.Keys == columns && forall c | c in row :: row[c].Str?
    ensures Conforms(rows, columns) && AllGroupable(rows, groupBy)
  {}

  lemma OverwrittenKeysCoincide(
    rt: Runtime, groupBy: seq<ColumnKey>, metrics: seq<Metric>, columns: set<ColumnKey>, t: ColumnKey)
    requires (set c | c in groupBy) <= columns && t in Targets(metrics) && t in groupBy
    ensures !AlwaysDistinct(rt, groupBy, metrics, columns)
  {
    var a := TextRow(columns);
    assert t in (set c | c in groupBy);
    OverwrittenKeysRepeat(rt, groupBy, metrics, a, t);
    var rows := [a, a[t := Str("y")]];
    TextRowsFit(rows, groupBy, columns);
  }

  /** Output keys are pairwise distinct on all inputs exactly when no metric target is a group column. */
  lemma OutputKeysDistinctIff(rt: Runtime, groupBy: seq<ColumnKey>, metrics: seq<Metric>, columns: set<ColumnKey>)
    requires (set c | c in groupBy) <= columns
    ensures AlwaysDistinct(rt, groupBy, metrics, columns) <==> KeepsKeys(groupBy, metrics)
  {
    if KeepsKeys(groupBy, metrics) {
      forall rows { OutputKeysDistinct(rt, rows, groupBy, metrics); }
    } else {
      var t :| t in Targets(metrics) && t in (set c | c in groupBy);
      OverwrittenKeysCoincide(rt, groupBy, metrics, columns, t);
    }
  }
}
