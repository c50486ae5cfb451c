/**
 What a window delivers against what the plan check promised.  The check names the column and the
 target of a metric by `str` of them; the executor reads and writes the values themselves, and
 attaches what it then finds under the `str` of the target.
 */
module WindowDelivery {
  import opened Values
  import opened Aggregation
  import opened WindowProofs

  /** The metric as the plan check understands it. */
  function Promised(m: Metric): Metric {
    m.(column := Named(m.columnText), target := Named(m.targetText))
  }

  function PromisedAll(metrics: seq<Metric>): seq<Metric> {
    seq(|metrics|, i requires 0 <= i < |metrics| => Promised(metrics[i]))
  }

  /** A column or target that is a text is named by that text. */
  predicate Coherent(m: Metric) {
    && (m.column.Named? ==> m.column == Named(m.columnText))
    && (m.target.Named? ==> m.target == Named(m.targetText))
  }

  predicate NamedByText(m: Metric) { m.column.Named? && m.target.Named? }

  predicate DistinctLabels(metrics: seq<Metric>) {
    forall i, j | 0 <= i < j < |metrics| :: metrics[i].targetText != metrics[j].targetText
  }

  /** Every row keeps its cells and gains each promised metric of its group. */
  function PromisedRows(rt: Runtime, rows: seq<Row>, groupBy: seq<ColumnKey>, metrics: seq<Metric>): seq<Row> {
    seq(|rows|, i requires 0 <= i < |rows| =>
      rows[i] + MetricValues(rt, PromisedAll(metrics), Members(rows, By(groupBy), KeyOf(rows[i], groupBy))))
  }

  ghost predicate Delivers(rt: Runtime, groupBy: seq<ColumnKey>, metrics: seq<Metric>, columns: set<ColumnKey>) {
    forall rows | Conforms(rows, columns) && AllGroupable(rows, groupBy) ::
      Windowed(rt, rows, groupBy, metrics) == Ok(PromisedRows(rt, rows, groupBy, metrics))
  }

  lemma PromisedTexts(metrics: seq<Metric>)
    requires forall m | m in metrics :: Coherent(m) && NamedByText(m)
    ensures PromisedAll(metrics) == metrics && Targets(metrics) == Labels(metrics)
  {
    forall i | 0 <= i < |metrics| ensures PromisedAll(metrics)[i] == metrics[i] {
      var m := metrics[i];
      assert m in metrics && Coherent(m) && NamedByText(m);
      assert Promised(m) == m;
    }
    assert forall m | m in metrics :: m.target == Named(m.targetText);
  }

  lemma TextsDeliver(rt: Runtime, rows: seq<Row>, groupBy: seq<ColumnKey>, metrics: seq<Metric>)
    requires KeepsKeys(groupBy, metrics)
    requires forall m | m in metrics :: Coherent(m) && NamedByText(m)
    ensures Windowed(rt, rows, groupBy, metrics) == Ok(PromisedRows(rt, rows, groupBy, metrics))
  {
    PromisedTexts(metrics);
    WindowMeetsDefinition(rt, rows, groupBy, metrics);
    var defined, promised := WindowDefinition(rt, rows, groupBy, metrics), PromisedRows(rt, rows, groupBy, metrics);
    forall i | 0 <= i < |rows| ensures defined[i] == promised[i] {
      AllAttached(rt, metrics, Members(rows, By(groupBy), KeyOf(rows[i], groupBy)));
    }
    assert defined == promised;
  }

  lemma AllAttached(rt: Runtime, metrics: seq<Metric>, members: seq<Row>)
    requires Targets(metrics) == Labels(metrics)
    ensures WindowValues(rt, metrics, members) == MetricValues(rt, metrics, members)
  {
    MetricKeys(rt, metrics, members);
  }

  // ----- a metric that is not named by texts -----

  function NumberRow(columns: set<ColumnKey>): (row: Row)
    ensures row.Keys == columns && forall c | c in columns :: Get(row, c) == Float(2.0)
  {
    map c | c in columns :: Float(2.0)
  }

  /** Over one row a metric of a number differs from a metric of nothing, and neither is lost silently. */
  lemma NumberOrNothing(rt: Runtime, row: Row, m: Metric, n: Metric)
    requires Get(row, m.column) == Float(2.0) && Get(row, n.column) == Null && m.measure == n.measure
    ensures MetricValue(rt, m, [row]) != Null && MetricValue(rt, m, [row]) != MetricValue(rt, n, [row])
  {
    SingleMetric(rt, m, row);
    SingleMetric(rt, n, row);
  }

  lemma {:induction false} PromisedValue(rt: Runtime, metrics: seq<Metric>, members: seq<Row>, k: nat)
    requires k < |metrics| && DistinctLabels(metrics)
    ensures Get(MetricValues(rt, PromisedAll(metrics), members), Named(metrics[k].targetText))
         == MetricValue(rt, Promised(metrics[k]), members)
  {
    LastMetricWins(rt, PromisedAll(metrics), members, k);
  }

  /** Under the label of a metric named otherwise the executor finds nothing, or a metric of nothing. */
  lemma DeliveredValue(rt: Runtime, metrics: seq<Metric>, row: Row, k: nat)
    requires k < |metrics| && DistinctLabels(metrics) && forall m | m in metrics :: Coherent(m)
    requires !NamedByText(metrics[k]) && forall c | c in row :: c.Named?
    ensures var delivered := Get(MetricValues(rt, metrics, [row]), Named(metrics[k].targetText));
      delivered == Null || (Get(row, metrics[k].column) == Null && delivered == MetricValue(rt, metrics[k], [row]))
  {
    var t := Named(metrics[k].targetText);
    if metrics[k].target.Named? {
      assert Coherent(metrics[k]);
      forall j | k < j < |metrics| ensures metrics[j].target != metrics[k].target { assert Coherent(metrics[j]); }
      LastMetricWins(rt, metrics, [row], k);
    } else {
      MetricKeys(rt, metrics, [row]);
      forall j | 0 <= j < |metrics| ensures metrics[j].target != t { assert Coherent(metrics[j]); }
      assert t !in Targets(metrics);
    }
  }

  lemma OtherNameIsLost(rt: Runtime, metrics: seq<Metric>, columns: set<ColumnKey>, k: nat)
    requires k < |metrics| && DistinctLabels(metrics) && forall m | m in metrics :: Coherent(m)
    requires !NamedByText(metrics[k]) && Named(metrics[k].columnText) in columns && forall c | c in columns :: c.Named?
    ensures var row, t := NumberRow(columns), Named(metrics[k].targetText);
      Get(MetricValues(rt, metrics, [row]), t) != Get(MetricValues(rt, PromisedAll(metrics), [row]), t)
  {
    var row, m := NumberRow(columns), metrics[k];
    PromisedValue(rt, metrics, [row], k);
    DeliveredValue(rt, metrics, row, k);
    var missing := if Get(row, m.column) == Null then m else m.(column := Other(Null));
    NumberOrNothing(rt, row, Promised(m), missing);
  }

  lemma OtherNameFails(rt: Runtime, groupBy: seq<ColumnKey>, metrics: seq<Metric>, columns: set<ColumnKey>, k: nat)
    requires (set c | c in groupBy) <= columns && KeepsKeys(groupBy, metrics) && LabelsApart(groupBy, metrics)
    requires k < |metrics| && DistinctLabels(metrics) && forall m | m in metrics :: Coherent(m)
    requires !NamedByText(metrics[k]) && Named(metrics[k].columnText) in columns && forall c | c in columns :: c.Named?
    ensures !Delivers(rt, groupBy, metrics, columns)
  {
    var row := NumberRow(columns);
    NumberRowsFit(row, groupBy, columns);
    WindowMeetsDefinition(rt, [row], groupBy, metrics);
    OtherNameIsLost(rt, metrics, columns, k);
    LostCell(rt, row, groupBy, metrics, k);
  }

  lemma LostCell(rt: Runtime, row: Row, groupBy: seq<ColumnKey>, metrics: seq<Metric>, k: nat)
    requires k < |metrics|
    requires var t := Named(metrics[k].targetText);
      Get(MetricValues(rt, metrics, [row]), t) != Get(MetricValues(rt, PromisedAll(metrics), [row]), t)
    ensures WindowDefinition(rt, [row], groupBy, metrics) != PromisedRows(rt, [row], groupBy, metrics)
  {
    var t := Named(metrics[k].targetText);
    SingleMember(row, groupBy);
    assert t in Labels(metrics) by { assert metrics[k] in metrics; }
    LabelPromised(rt, metrics, [row], k);
    assert Get(WindowDefinition(rt, [row], groupBy, metrics)[0], t) == Get(MetricValues(rt, metrics, [row]), t);
    assert Get(PromisedRows(rt, [row], groupBy, metrics)[0], t)
         == Get(MetricValues(rt, PromisedAll(metrics), [row]), t);
  }

  lemma NumberRowsFit(row: Row, groupBy: seq<ColumnKey>, columns: set<ColumnKey>)
    requires row == NumberRow(columns)
    ensures Conforms([row], columns) && AllGroupable([row], groupBy)
  {}

  lemma LabelPromised(rt: Runtime, metrics: seq<Metric>, members: seq<Row>, k: nat)
    requires k < |metrics|
    ensures Named(metrics[k].targetText) in MetricValues(rt, PromisedAll(metrics), members)
  {
    MetricKeys(rt, PromisedAll(metrics), members);
    assert PromisedAll(metrics)[k] in PromisedAll(metrics);
  }

  // ----- a label or a target that is a group column -----

  lemma GroupLabelFails(rt: Runtime, groupBy: seq<ColumnKey>, metrics: seq<Metric>, columns: set<ColumnKey>, k: nat)
    requires (set c | c in groupBy) <= columns && KeepsKeys(groupBy, metrics) && DistinctLabels(metrics)
    requires k < |metrics| && Named(metrics[k].targetText) in groupBy
    ensures !Delivers(rt, groupBy, metrics, columns)
  {
    var row, t := TextRow(columns), Named(metrics[k].targetText);
    TextRowsFit([row], groupBy, columns);
    TextKeys(groupBy, columns);
    assert t in Labels(metrics) by { assert metrics[k] in metrics; }
    KeyCellKept(rt, row, groupBy, metrics, t);
    SingleMember(row, groupBy);
    LabelPromised(rt, metrics, [row], k);
    PromisedValue(rt, metrics, [row], k);
    MetricNeverText(rt, Promised(metrics[k]), [row]);
    assert !Get(PromisedRows(rt, [row], groupBy, metrics)[0], t).Str?;
  }

  lemma GroupTargetFails(rt: Runtime, groupBy: seq<ColumnKey>, metrics: seq<Metric>, columns: set<ColumnKey>)
    requires (set c | c in groupBy) <= columns && !KeepsKeys(groupBy, metrics)
    ensures !Delivers(rt, groupBy, metrics, columns)
  {
    TextRowsFit([TextRow(columns)], groupBy, columns);
    TextKeys(groupBy, columns);
    OverwrittenKeyIsLost(rt, TextRow(columns), groupBy, metrics);
  }

  lemma Undelivered(rt: Runtime, groupBy: seq<ColumnKey>, metrics: seq<Metric>, columns: set<ColumnKey>, k: nat)
    requires (set c | c in groupBy) <= columns && DistinctLabels(metrics) && forall c | c in columns :: c.Named?
    requires forall m | m in metrics :: Coherent(m) && Named(m.columnText) in columns
    requires k < |metrics| && !NamedByText(metrics[k])
    ensures !Delivers(rt, groupBy, metrics, columns)
  {
    assert metrics[k] in metrics;
    if !KeepsKeys(groupBy, metrics) {
      GroupTargetFails(rt, groupBy, metrics, columns);
    } else if !LabelsApart(groupBy, metrics) {
      var t :| t in Labels(metrics) && t in (set c | c in groupBy);
      var j :| 0 <= j < |metrics| && Named(metrics[j].targetText) == t;
      GroupLabelFails(rt, groupBy, metrics, columns, j);
    } else {
      OtherNameFails(rt, groupBy, metrics, columns, k);
    }
  }

  /**
   On every input a window attaches to each row exactly the metrics the check promised if and only
   if every metric names its column and its target by a text and no target is a group column.
   */
  lemma WindowDeliversIff(rt: Runtime, groupBy: seq<ColumnKey>, metrics: seq<Metric>, columns: set<ColumnKey>)
    requires (set c | c in groupBy) <= columns && DistinctLabels(metrics) && forall c | c in columns :: c.Named?
    requires forall m | m in metrics :: Coherent(m) && Named(m.columnText) in columns
    ensures Delivers(rt, groupBy, metrics, columns)
       <==> KeepsKeys(groupBy, metrics) && forall m | m in metrics :: NamedByText(m)
  {
    if exists k :: 0 <= k < |metrics| && !NamedByText(metrics[k]) {
      var k :| 0 <= k < |metrics| && !NamedByText(metrics[k]);
      Undelivered(rt, groupBy, metrics, columns, k);
    } else if !KeepsKeys(groupBy, metrics) {
      GroupTargetFails(rt, groupBy, metrics, columns);
    } else {
      forall rows | Conforms(rows, columns) && AllGroupable(rows, groupBy)
        ensures Windowed(rt, rows, groupBy, metrics) == Ok(PromisedRows(rt, rows, groupBy, metrics))
      {
        TextsDeliver(rt, rows, groupBy, metrics);
      }
    }
  }
}
