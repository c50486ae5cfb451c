/**
 What the metric cells of aggregated rows, and the cells a window attaches, hold: counts, sum,
 mean, least and greatest of a column's numbers over the rows that share a row's group columns.
 */
module MetricMeaning {
  import opened Values
  import opened Aggregation
  import opened WindowProofs

  // ----- the rows of a group and their readings -----

  /** Two rows with equal group columns. */
  predicate SameGroup(a: Row, b: Row, groupBy: seq<ColumnKey>) {
    forall c | c in groupBy :: PyEqual(Get(a, c), Get(b, c))
  }

  lemma SameGroupKey(a: Row, b: Row, groupBy: seq<ColumnKey>)
    ensures SameGroup(a, b, groupBy) <==> KeyOf(a, groupBy) == KeyOf(b, groupBy)
  {
    if SameGroup(a, b, groupBy) {
      forall i | 0 <= i < |groupBy| ensures KeyOf(a, groupBy)[i] == KeyOf(b, groupBy)[i] {
        assert groupBy[i] in groupBy;
      }
    }
    if KeyOf(a, groupBy) == KeyOf(b, groupBy) {
      forall c | c in groupBy ensures PyEqual(Get(a, c), Get(b, c)) {
        var i :| 0 <= i < |groupBy| && groupBy[i] == c;
        assert KeyOf(a, groupBy)[i] == KeyOf(b, groupBy)[i];
      }
    }
  }

  /** The rows of `head`'s group with a value in the column. */
  function Filled(rows: seq<Row>, head: Row, groupBy: seq<ColumnKey>, column: ColumnKey): set<nat> {
    set i: nat | i < |rows| && SameGroup(rows[i], head, groupBy) && Get(rows[i], column) != Null
  }

  /** The numbers of the column in `head`'s group, in order. */
  function Readings(rows: seq<Row>, head: Row, groupBy: seq<ColumnKey>, column: ColumnKey): seq<real> {
    if rows == [] then []
    else
      var n := |rows| - 1;
      var before, v := Readings(rows[..n], head, groupBy, column), Get(rows[n], column);
      if SameGroup(rows[n], head, groupBy) && IsNumber(v) then before + [AsReal(v)] else before
  }

  function Added(xs: seq<real>): real { if xs == [] then 0.0 else Added(xs[..|xs| - 1]) + xs[|xs| - 1] }

  /** The number is the sum, mean, least or, by default, greatest of the numbers. */
  ghost predicate Summarises(measure: Value, xs: seq<real>, q: real) {
    if measure == Str("sum") then q == Added(xs)
    else if measure == Str("avg") then q * |xs| as real == Added(xs)
    else if measure == Str("min") then q in xs && forall x | x in xs :: q <= x
    else q in xs && forall x | x in xs :: x <= q
  }

  /** The cell holds what its metric promises of `head`'s group. */
  ghost predicate Measures(
    rt: Runtime, metric: Metric, rows: seq<Row>, head: Row, groupBy: seq<ColumnKey>, cell: Value)
  {
    var filled, xs := Filled(rows, head, groupBy, metric.column), Readings(rows, head, groupBy, metric.column);
    if metric.measure == Str("count") then cell == Int(|filled|)
    else if metric.measure == Str("count_distinct") then
      cell == Int(|set i | i in filled :: rt.repr(Get(rows[i], metric.column))|)
    else if xs == [] then cell == Null
    else cell.Float? && Summarises(metric.measure, xs, cell.quantity)
  }

  // ----- one metric -----

  lemma {:induction false} GroupReadings(rows: seq<Row>, head: Row, groupBy: seq<ColumnKey>, column: ColumnKey)
    ensures Numbers(Present(Members(rows, By(groupBy), KeyOf(head, groupBy)), column))
         == Readings(rows, head, groupBy, column)
  {
    if rows != [] {
      var n := |rows| - 1;
      GroupReadings(rows[..n], head, groupBy, column);
      SameGroupKey(rows[n], head, groupBy);
      var members := Members(rows[..n], By(groupBy), KeyOf(head, groupBy));
      PresentSnoc(members, rows[n], column);
      NumbersSnoc(Present(members, column), Get(rows[n], column));
    }
  }

  lemma PresentSnoc(rows: seq<Row>, row: Row, column: ColumnKey)
    ensures Present(rows + [row], column)
         == Present(rows, column) + if Get(row, column) != Null then [Get(row, column)] else []
  {
    assert (rows + [row])[..|rows|] == rows;
  }

  /** One more row makes the set of filled rows larger by its index, if it is filled. */
  lemma FilledSnoc(rows: seq<Row>, head: Row, groupBy: seq<ColumnKey>, column: ColumnKey)
    requires rows != []
    ensures var n := |rows| - 1; var before := Filled(rows[..n], head, groupBy, column);
      && n !in before && Filled(rows, head, groupBy, column)
        == if SameGroup(rows[n], head, groupBy) && Get(rows[n], column) != Null then before + {n} else before
  {
    var n := |rows| - 1;
    assert forall i | 0 <= i < n :: rows[..n][i] == rows[i];
  }

  /** How many values a group has. */
  lemma {:induction false} GroupCounted(
    rt: Runtime, rows: seq<Row>, head: Row, groupBy: seq<ColumnKey>, column: ColumnKey)
    ensures |Present(Members(rows, By(groupBy), KeyOf(head, groupBy)), column)|
         == |Filled(rows, head, groupBy, column)|
  {
    if rows != [] {
      var n := |rows| - 1;
      GroupCounted(rt, rows[..n], head, groupBy, column);
      SameGroupKey(rows[n], head, groupBy);
      PresentSnoc(Members(rows[..n], By(groupBy), KeyOf(head, groupBy)), rows[n], column);
      FilledSnoc(rows, head, groupBy, column);
    }
  }

  /** The value occurs among the filled rows. */
  ghost predicate OccursIn(rows: seq<Row>, filled: set<nat>, column: ColumnKey, v: Value) {
    exists i :: i in filled && i < |rows| && Get(rows[i], column) == v
  }

  lemma OccursSnoc(rows: seq<Row>, before: set<nat>, column: ColumnKey, v: Value)
    requires rows != [] && forall i | i in before :: i < |rows| - 1
    ensures var n := |rows| - 1;
      && (OccursIn(rows, before, column, v) <==> OccursIn(rows[..n], before, column, v))
      && (OccursIn(rows, before + {n}, column, v) <==>
            OccursIn(rows[..n], before, column, v) || Get(rows[n], column) == v)
  {
    var n := |rows| - 1;
    assert forall i | 0 <= i < n :: rows[..n][i] == rows[i];
    if OccursIn(rows[..n], before, column, v) {
      var i :| i in before && i < n && Get(rows[..n][i], column) == v;
      assert i in before + {n} && Get(rows[i], column) == v;
    }
    if Get(rows[n], column) == v { assert n in before + {n}; }
  }

  lemma {:induction false} GroupOccurs(
    rows: seq<Row>, head: Row, groupBy: seq<ColumnKey>, column: ColumnKey, v: Value)
    ensures v in Present(Members(rows, By(groupBy), KeyOf(head, groupBy)), column)
       <==> OccursIn(rows, Filled(rows, head, groupBy, column), column, v)
  {
    if rows != [] {
      var n := |rows| - 1;
      var members := Members(rows[..n], By(groupBy), KeyOf(head, groupBy));
      var before := Filled(rows[..n], head, groupBy, column);
      GroupOccurs(rows[..n], head, groupBy, column, v);
      GroupGrows(rows, head, groupBy, column);
      FilledSnoc(rows, head, groupBy, column);
      OccursSnoc(rows, before, column, v);
    }
  }

  /** One more row adds its value to those of the group, if it is filled. */
  lemma GroupGrows(rows: seq<Row>, head: Row, groupBy: seq<ColumnKey>, column: ColumnKey)
    requires rows != []
    ensures var n := |rows| - 1;
      Present(Members(rows, By(groupBy), KeyOf(head, groupBy)), column)
      == Present(Members(rows[..n], By(groupBy), KeyOf(head, groupBy)), column)
       + if SameGroup(rows[n], head, groupBy) && Get(rows[n], column) != Null then [Get(rows[n], column)] else []
  {
    var n := |rows| - 1;
    SameGroupKey(rows[n], head, groupBy);
    PresentSnoc(Members(rows[..n], By(groupBy), KeyOf(head, groupBy)), rows[n], column);
  }

  lemma {:induction false} LeastIsLeast(xs: seq<real>)
    requires xs != []
    ensures Least(xs) in xs && forall x | x in xs :: Least(xs) <= x
  {
    if |xs| > 1 {
      LeastIsLeast(xs[1..]);
      assert forall x | x in xs :: x == xs[0] || x in xs[1..];
    }
  }

  lemma {:induction false} GreatestIsGreatest(xs: seq<real>)
    requires xs != []
    ensures Greatest(xs) in xs && forall x | x in xs :: x <= Greatest(xs)
  {
    if |xs| > 1 {
      GreatestIsGreatest(xs[1..]);
      assert forall x | x in xs :: x == xs[0] || x in xs[1..];
    }
  }

  lemma {:induction false} SumIsAdded(xs: seq<real>)
    ensures Sum(xs) == Added(xs)
  {
    if xs != [] { SumIsAdded(xs[..|xs| - 1]); }
  }

  lemma MeanTimesCount(total: real, n: nat)
    requires n > 0
    ensures total / n as real * n as real == total
  {}

  lemma DistinctTexts(rt: Runtime, rows: seq<Row>, head: Row, groupBy: seq<ColumnKey>, column: ColumnKey)
    ensures var values := Present(Members(rows, By(groupBy), KeyOf(head, groupBy)), column);
            var filled := Filled(rows, head, groupBy, column);
      (set v | v in values :: rt.repr(v)) == set i | i in filled :: rt.repr(Get(rows[i], column))
  {
    var values := Present(Members(rows, By(groupBy), KeyOf(head, groupBy)), column);
    var filled := Filled(rows, head, groupBy, column);
    var texts, indexed := set v | v in values :: rt.repr(v), set i | i in filled :: rt.repr(Get(rows[i], column));
    forall s | s in texts ensures s in indexed {
      var v :| v in values && rt.repr(v) == s;
      GroupOccurs(rows, head, groupBy, column, v);
    }
    forall s | s in indexed ensures s in texts {
      var i :| i in filled && rt.repr(Get(rows[i], column)) == s;
      GroupOccurs(rows, head, groupBy, column, Get(rows[i], column));
    }
  }

  function Summary(measure: Value, xs: seq<real>): real
    requires xs != []
  {
    if measure == Str("sum") then Sum(xs)
    else if measure == Str("avg") then Sum(xs) / |xs| as real
    else if measure == Str("min") then Least(xs)
    else Greatest(xs)
  }

  lemma SummarySummarises(measure: Value, xs: seq<real>)
    requires xs != []
    ensures Summarises(measure, xs, Summary(measure, xs))
  {
    SumIsAdded(xs);
    MeanTimesCount(Sum(xs), |xs|);
    LeastIsLeast(xs);
    GreatestIsGreatest(xs);
  }

  lemma NumericValue(rt: Runtime, metric: Metric, members: seq<Row>, xs: seq<real>)
    requires xs == Numbers(Present(members, metric.column))
    requires metric.measure != Str("count") && metric.measure != Str("count_distinct")
    ensures MetricValue(rt, metric, members) == if xs == [] then Null else Float(Summary(metric.measure, xs))
  {}

  lemma CountedValue(rt: Runtime, metric: Metric, members: seq<Row>)
    ensures metric.measure == Str("count") ==>
      MetricValue(rt, metric, members) == Int(|Present(members, metric.column)|)
    ensures metric.measure == Str("count_distinct") ==>
      MetricValue(rt, metric, members) == Int(|set v | v in Present(members, metric.column) :: rt.repr(v)|)
  {}

  lemma MetricMeasures(rt: Runtime, metric: Metric, rows: seq<Row>, head: Row, groupBy: seq<ColumnKey>, cell: Value)
    requires cell == MetricValue(rt, metric, Members(rows, By(groupBy), KeyOf(head, groupBy)))
    ensures Measures(rt, metric, rows, head, groupBy, cell)
  {
    var members := Members(rows, By(groupBy), KeyOf(head, groupBy));
    if metric.measure == Str("count") || metric.measure == Str("count_distinct") {
      CountedValue(rt, metric, members);
      GroupCounted(rt, rows, head, groupBy, metric.column);
      DistinctTexts(rt, rows, head, groupBy, metric.column);
    } else {
      GroupReadings(rows, head, groupBy, metric.column);
      var xs := Readings(rows, head, groupBy, metric.column);
      NumericValue(rt, metric, members, xs);
      if xs != [] { SummarySummarises(metric.measure, xs); }
    }
  }

  // ----- the cells of the outputs -----

  /**
   Every output row of an aggregation stands for one group: it has the group columns of one of its
   rows, except those a metric overwrites, and under each target what the last metric with that
   target promises of the group.
   */
  lemma AggregatedCells(rt: Runtime, rows: seq<Row>, groupBy: seq<ColumnKey>, metrics: seq<Metric>, j: nat)
    requires j < |Aggregated(rt, rows, groupBy, metrics)|
    ensures |Heads(rows, By(groupBy))| == |Aggregated(rt, rows, groupBy, metrics)|
    ensures var out, head := Aggregated(rt, rows, groupBy, metrics)[j], Heads(rows, By(groupBy))[j];
      && head in rows && out.Keys == (set c | c in groupBy) + Targets(metrics)
      && (forall c | c in groupBy && c !in Targets(metrics) :: out[c] == Get(head, c))
      && forall k | 0 <= k < |metrics| && LastOfTarget(metrics, k) ::
           Measures(rt, metrics[k], rows, head, groupBy, Get(out, metrics[k].target))
  {
    var head := Heads(rows, By(groupBy))[j];
    var members := Members(rows, By(groupBy), KeyOf(head, groupBy));
    HeadsAreRows(rows, By(groupBy));
    GroupRowCells(rt, rows, groupBy, metrics, head);
    var out := GroupRow(rt, rows, groupBy, metrics, head);
    forall c | c in groupBy && c !in Targets(metrics) ensures out[c] == Get(head, c) {
      assert c in (set x | x in groupBy) && Get(out, c) == Get(head, c);
    }
    forall k | 0 <= k < |metrics| && LastOfTarget(metrics, k)
      ensures Measures(rt, metrics[k], rows, head, groupBy, Get(out, metrics[k].target))
    {
      assert metrics[k] in metrics && metrics[k].target in Targets(metrics);
      LastMetricWins(rt, metrics, members, k);
      MetricMeasures(rt, metrics[k], rows, head, groupBy, Get(out, metrics[k].target));
    }
  }

  /** Every group has exactly one output row. */
  lemma OneOutputEach(rt: Runtime, rows: seq<Row>, groupBy: seq<ColumnKey>, metrics: seq<Metric>, row: Row)
    requires row in rows
    ensures var heads := Heads(rows, By(groupBy));
      && |Aggregated(rt, rows, groupBy, metrics)| == |heads|
      && (exists j :: 0 <= j < |heads| && SameGroup(heads[j], row, groupBy))
      && forall i, j | 0 <= i < j < |heads| :: !SameGroup(heads[i], heads[j], groupBy)
  {
    var heads := Heads(rows, By(groupBy));
    HeadsEnumerateGroups(rows, By(groupBy));
    assert HasKey(rows, By(groupBy), KeyOf(row, groupBy));
    assert HasKey(heads, By(groupBy), KeyOf(row, groupBy));
    var h :| h in heads && By(groupBy)(h) == KeyOf(row, groupBy);
    var j :| 0 <= j < |heads| && heads[j] == h;
    SameGroupKey(heads[j], row, groupBy);
    forall i, k | 0 <= i < k < |heads| ensures !SameGroup(heads[i], heads[k], groupBy) {
      SameGroupKey(heads[i], heads[k], groupBy);
    }
  }

  /**
   A window whose metrics name texts outside the group columns leaves every row in its place with
   its other columns, and attaches what each metric promises of the row's group.
   */
  lemma WindowedCells(rt: Runtime, rows: seq<Row>, groupBy: seq<ColumnKey>, metrics: seq<Metric>, i: nat)
    requires KeepsKeys(groupBy, metrics) && (forall m | m in metrics :: m.target == Named(m.targetText)) && i < |rows|
    ensures Windowed(rt, rows, groupBy, metrics).Ok? && |Windowed(rt, rows, groupBy, metrics).value| == |rows|
    ensures var out := Windowed(rt, rows, groupBy, metrics).value[i];
      && out.Keys == rows[i].Keys + Targets(metrics)
      && (forall c | c in rows[i] && c !in Targets(metrics) :: out[c] == rows[i][c])
      && forall k | 0 <= k < |metrics| && LastOfTarget(metrics, k) ::
           Measures(rt, metrics[k], rows, rows[i], groupBy, Get(out, metrics[k].target))
  {
    assert Targets(metrics) == Labels(metrics);
    WindowMeetsDefinition(rt, rows, groupBy, metrics);
    var members := Members(rows, By(groupBy), KeyOf(rows[i], groupBy));
    MetricKeys(rt, metrics, members);
    forall k | 0 <= k < |metrics| && LastOfTarget(metrics, k)
      ensures Measures(rt, metrics[k], rows, rows[i], groupBy,
                       Get(Windowed(rt, rows, groupBy, metrics).value[i], metrics[k].target))
    {
      assert metrics[k] in metrics && metrics[k].target in Labels(metrics);
      LastMetricWins(rt, metrics, members, k);
      MetricMeasures(rt, metrics[k], rows, rows[i], groupBy, MetricValue(rt, metrics[k], members));
    }
  }
}
