/**
 Group aggregation and window aggregation over rows.
 Follows `_aggregate` and `_window_aggregate` of agent_runtime/data_processing/processor.py:
 a dictionary of groups is filled row by row, one output row is made per group in order of
 first appearance, and a window aggregation looks every input row's group up again.
 */
module Aggregation {
  import opened Values

  /**
   A metric of an aggregation.  The executor reads and writes the raw `column` and `target`, which
   need not be texts; the plan check, and the columns a window attaches, go by `str` of them.
   */
  datatype Metric = Metric(column: ColumnKey, columnText: string, measure: Value, target: ColumnKey, targetText: string)

  type Key = seq<Value>

  /** `tuple(row.get(column) for column in group_by)`. */
  function RawKey(row: Row, groupBy: seq<ColumnKey>): seq<Value> {
    seq(|groupBy|, i requires 0 <= i < |groupBy| => Get(row, groupBy[i]))
  }

  /** Two rows land in the same dictionary entry exactly when their canonical keys are equal. */
  function KeyOf(row: Row, groupBy: seq<ColumnKey>): Key {
    seq(|groupBy|, i requires 0 <= i < |groupBy| => Canon(Get(row, groupBy[i])))
  }

  /** The grouping as a function; most of what follows holds for any function in its place. */
  function By(groupBy: seq<ColumnKey>): Row -> Key { (row: Row) => KeyOf(row, groupBy) }

  predicate Groupable(row: Row, groupBy: seq<ColumnKey>) {
    forall c | c in groupBy :: Hashable(Get(row, c))
  }

  /** The rows of one group, in input order. */
  function Members(rows: seq<Row>, keyOf: Row -> Key, key: Key): seq<Row> {
    if rows == [] then []
    else
      var earlier, last := Members(rows[..|rows| - 1], keyOf, key), rows[|rows| - 1];
      if keyOf(last) == key then earlier + [last] else earlier
  }

  // ----- one metric over one group -----

  function Present(rows: seq<Row>, column: ColumnKey): seq<Value> {
    if rows == [] then []
    else
      var earlier, v := Present(rows[..|rows| - 1], column), Get(rows[|rows| - 1], column);
      if v != Null then earlier + [v] else earlier
  }

  function Numbers(values: seq<Value>): seq<real> {
    if values == [] then []
    else
      var earlier, v := Numbers(values[..|values| - 1]), values[|values| - 1];
      if IsNumber(v) then earlier + [AsReal(v)] else earlier
  }

  function Sum(numbers: seq<real>): real {
    if numbers == [] then 0.0 else Sum(numbers[..|numbers| - 1]) + numbers[|numbers| - 1]
  }

  function Least(numbers: seq<real>): real
    requires numbers != []
  {
    if |numbers| == 1 then numbers[0]
    else if Least(numbers[1..]) < numbers[0] then Least(numbers[1..]) else numbers[0]
  }

  function Greatest(numbers: seq<real>): real
    requires numbers != []
  {
    if |numbers| == 1 then numbers[0]
    else if Greatest(numbers[1..]) > numbers[0] then Greatest(numbers[1..]) else numbers[0]
  }

  function MetricValue(rt: Runtime, metric: Metric, members: seq<Row>): Value {
    var values := Present(members, metric.column);
    if metric.measure == Str("count") then Int(|values|)
    else if metric.measure == Str("count_distinct") then Int(|set v | v in values :: rt.repr(v)|)
    else
      var numbers := Numbers(values);
      if numbers == [] then Null
      else if metric.measure == Str("sum") then Float(Sum(numbers))
      else if metric.measure == Str("avg") then Float(Sum(numbers) / |numbers| as real)
      else if metric.measure == Str("min") then Float(Least(numbers))
      else Float(Greatest(numbers))
  }

  /** All metrics of one group; a later metric with the same target wins. */
  function MetricValues(rt: Runtime, metrics: seq<Metric>, members: seq<Row>): Row {
    if metrics == [] then map[]
    else
      var last := metrics[|metrics| - 1];
      MetricValues(rt, metrics[..|metrics| - 1], members)[last.target := MetricValue(rt, last, members)]
  }

  function Targets(metrics: seq<Metric>): set<ColumnKey> { set m | m in metrics :: m.target }

  /** The columns a window attaches: `str(metric["target"])`. */
  function Labels(metrics: seq<Metric>): set<ColumnKey> { set m | m in metrics :: Named(m.targetText) }

  // ----- aggregation -----

  /** `dict(zip(columns, values))`. */
  function Zip(columns: seq<ColumnKey>, values: seq<Value>): Row
    requires |columns| == |values|
  {
    if columns == [] then map[]
    else
      Zip(columns[..|columns| - 1], values[..|values| - 1])
        [columns[|columns| - 1] := values[|values| - 1]]
  }

  /** The first row of every group, in order of first appearance. */
  function Heads(rows: seq<Row>, keyOf: Row -> Key): seq<Row> {
    if rows == [] then []
    else
      var earlier, last := rows[..|rows| - 1], rows[|rows| - 1];
      if Members(earlier, keyOf, keyOf(last)) == [] then Heads(earlier, keyOf) + [last] else Heads(earlier, keyOf)
  }

  function GroupRow(rt: Runtime, rows: seq<Row>, groupBy: seq<ColumnKey>, metrics: seq<Metric>, head: Row): Row {
    Zip(groupBy, RawKey(head, groupBy)) + MetricValues(rt, metrics, Members(rows, By(groupBy), KeyOf(head, groupBy)))
  }

  /** One output row per group: its key, then its metrics. */
  function Aggregated(rt: Runtime, rows: seq<Row>, groupBy: seq<ColumnKey>, metrics: seq<Metric>): seq<Row> {
    var heads := Heads(rows, By(groupBy));
    seq(|heads|, i requires 0 <= i < |heads| => GroupRow(rt, rows, groupBy, metrics, heads[i]))
  }

  predicate AllGroupable(rows: seq<Row>, groupBy: seq<ColumnKey>) {
    forall row | row in rows :: Groupable(row, groupBy)
  }

  // ----- window aggregation -----

  /** `metrics_by_group`, read back from the aggregated rows; a later row wins. */
  function Index(keyOf: Row -> Key, labels: set<ColumnKey>, grouped: seq<Row>): map<Key, Row> {
    if grouped == [] then map[]
    else
      var last := grouped[|grouped| - 1];
      Index(keyOf, labels, grouped[..|grouped| - 1])[keyOf(last) := map t | t in labels :: Get(last, t)]
  }

  function Attach(rows: seq<Row>, keyOf: Row -> Key, index: map<Key, Row>): Outcome<seq<Row>> {
    if rows == [] then Ok([])
    else
      var last := rows[|rows| - 1];
      var earlier :- Attach(rows[..|rows| - 1], keyOf, index);
      if keyOf(last) in index then Ok(earlier + [last + index[keyOf(last)]]) else Err(MissingKey("group"))
  }

  function Windowed(rt: Runtime, rows: seq<Row>, groupBy: seq<ColumnKey>, metrics: seq<Metric>): Outcome<seq<Row>> {
    Attach(rows, By(groupBy), Index(By(groupBy), Labels(metrics), Aggregated(rt, rows, groupBy, metrics)))
  }

  /** What a window attaches to the rows of one group: under each label, the metric of that key. */
  function WindowValues(rt: Runtime, metrics: seq<Metric>, members: seq<Row>): Row {
    map t | t in Labels(metrics) :: Get(MetricValues(rt, metrics, members), t)
  }

  /** Each row gains what is attached to the rows sharing its key. */
  function WindowDefinition(rt: Runtime, rows: seq<Row>, groupBy: seq<ColumnKey>, metrics: seq<Metric>): seq<Row> {
    seq(|rows|, i requires 0 <= i < |rows| =>
      rows[i] + WindowValues(rt, metrics, Members(rows, By(groupBy), KeyOf(rows[i], groupBy))))
  }

  // ----- the loops -----

  method MetricLoop(rt: Runtime, metrics: seq<Metric>, members: seq<Row>, start: Row) returns (output: Row)
    ensures output == start + MetricValues(rt, metrics, members)
  {
    output := start;
    var k := 0;
    while k < |metrics|
      invariant 0 <= k <= |metrics|
      invariant output == start + MetricValues(rt, metrics[..k], members)
    {
      assert metrics[..k + 1][..k] == metrics[..k];
      output := output[metrics[k].target := MetricValue(rt, metrics[k], members)];
      k := k + 1;
    }
    assert metrics[..k] == metrics;
  }

  predicate GroupsFilled(grouped: map<Key, seq<Row>>, rows: seq<Row>, keyOf: Row -> Key) {
    && (forall key | key in grouped :: grouped[key] == Members(rows, keyOf, key) && grouped[key] != [])
    && (forall row | row in rows :: keyOf(row) in grouped)
  }

  lemma EmptyGroup(rows: seq<Row>, keyOf: Row -> Key, key: Key)
    requires forall row | row in rows :: keyOf(row) != key
    ensures Members(rows, keyOf, key) == []
  {}

  function Extended(grouped: map<Key, seq<Row>>, key: Key, row: Row): map<Key, seq<Row>> {
    grouped[key := (if key in grouped then grouped[key] else []) + [row]]
  }

  /** Filling one dictionary entry keeps every group equal to its definition. */
  lemma FillGroup(grouped: map<Key, seq<Row>>, rows: seq<Row>, row: Row, keyOf: Row -> Key)
    requires GroupsFilled(grouped, rows, keyOf)
    ensures GroupsFilled(Extended(grouped, keyOf(row), row), rows + [row], keyOf)
    ensures keyOf(row) in grouped <==> Members(rows, keyOf, keyOf(row)) != []
  {
    assert (rows + [row])[..|rows|] == rows;
    if keyOf(row) !in grouped { EmptyGroup(rows, keyOf, keyOf(row)); }
  }

  method GroupRows(rows: seq<Row>, groupBy: seq<ColumnKey>)
    returns (groupable: bool, grouped: map<Key, seq<Row>>, heads: seq<Row>)
    ensures groupable == AllGroupable(rows, groupBy)
    ensures groupable ==> GroupsFilled(grouped, rows, By(groupBy)) && heads == Heads(rows, By(groupBy))
  {
    grouped, heads := map[], [];
    var i := 0;
    while i < |rows|
      invariant 0 <= i <= |rows|
      invariant AllGroupable(rows[..i], groupBy)
      invariant heads == Heads(rows[..i], By(groupBy))
      invariant GroupsFilled(grouped, rows[..i], By(groupBy))
    {
      var row := rows[i];
      if exists c | c in groupBy :: !Hashable(Get(row, c)) {
        assert row in rows && !Groupable(row, groupBy);
        return false, grouped, heads;
      }
      assert rows[..i + 1] == rows[..i] + [row];
      FillGroup(grouped, rows[..i], row, By(groupBy));
      var key := KeyOf(row, groupBy);
      if key !in grouped { heads := heads + [row]; }
      grouped := Extended(grouped, key, row);
      i := i + 1;
    }
    assert rows[..i] == rows;
    groupable := true;
  }

  lemma {:induction false} HeadsAreRows(rows: seq<Row>, keyOf: Row -> Key)
    ensures forall h | h in Heads(rows, keyOf) :: h in rows
  {
    if rows != [] { HeadsAreRows(rows[..|rows| - 1], keyOf); }
  }

  /** The output rows of the groups that `GroupRows` filled. */
  method AggregateRows(rt: Runtime, rows: seq<Row>, groupBy: seq<ColumnKey>, metrics: seq<Metric>,
                       grouped: map<Key, seq<Row>>, heads: seq<Row>)
    returns (result: seq<Row>)
    requires GroupsFilled(grouped, rows, By(groupBy)) && heads == Heads(rows, By(groupBy))
    ensures result == Aggregated(rt, rows, groupBy, metrics)
  {
    HeadsAreRows(rows, By(groupBy));
    result := [];
    var j := 0;
    while j < |heads|
      invariant 0 <= j <= |heads|
      invariant result == Aggregated(rt, rows, groupBy, metrics)[..j]
    {
      assert heads[j] in heads;
      var key := KeyOf(heads[j], groupBy);
      var output := MetricLoop(rt, metrics, grouped[key], Zip(groupBy, RawKey(heads[j], groupBy)));
      assert output == GroupRow(rt, rows, groupBy, metrics, heads[j]);
      result := result + [output];
      j := j + 1;
    }
    assert result == Aggregated(rt, rows, groupBy, metrics);
  }

  method IndexLoop(groupBy: seq<ColumnKey>, labels: set<ColumnKey>, grouped: seq<Row>) returns (index: map<Key, Row>)
    ensures index == Index(By(groupBy), labels, grouped)
  {
    index := map[];
    var k := 0;
    while k < |grouped|
      invariant 0 <= k <= |grouped|
      invariant index == Index(By(groupBy), labels, grouped[..k])
    {
      assert grouped[..k + 1][..k] == grouped[..k];
      index := index[KeyOf(grouped[k], groupBy) := map t | t in labels :: Get(grouped[k], t)];
      k := k + 1;
    }
    assert grouped[..k] == grouped;
  }

  method AttachLoop(rows: seq<Row>, groupBy: seq<ColumnKey>, index: map<Key, Row>) returns (r: Outcome<seq<Row>>)
    ensures r == Attach(rows, By(groupBy), index)
  {
    var result := [];
    var i := 0;
    while i < |rows|
      invariant 0 <= i <= |rows|
      invariant Attach(rows[..i], By(groupBy), index) == Ok(result)
    {
      assert rows[..i + 1][..i] == rows[..i];
      var key := KeyOf(rows[i], groupBy);
      if key !in index {
        AttachFails(rows, By(groupBy), index, i);
        return Err(MissingKey("group"));
      }
      result := result + [rows[i] + index[key]];
      i := i + 1;
    }
    assert rows[..i] == rows;
    r := Ok(result);
  }

  lemma {:induction false} AttachError(rows: seq<Row>, keyOf: Row -> Key, index: map<Key, Row>)
    ensures Attach(rows, keyOf, index).Err? ==> Attach(rows, keyOf, index) == Err(MissingKey("group"))
  {
    if rows != [] { AttachError(rows[..|rows| - 1], keyOf, index); }
  }

  lemma {:induction false} AttachFails(rows: seq<Row>, keyOf: Row -> Key, index: map<Key, Row>, i: nat)
    requires i < |rows| && keyOf(rows[i]) !in index
    ensures Attach(rows, keyOf, index) == Err(MissingKey("group"))
  {
    AttachError(rows[..|rows| - 1], keyOf, index);
    if i < |rows| - 1 { AttachFails(rows[..|rows| - 1], keyOf, index, i); }
  }
}
