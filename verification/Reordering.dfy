/**
 Derived operations may run in any order that respects their columns: the rows come out the
 same, so replacing a valid order by the computed one never changes a result.
 */
module Reordering {
  import opened Values
  import opened ProcessingPlan
  import opened Expressions
  import opened Aggregation
  import opened WindowProofs
  import opened Processor
  import opened OperationOrder
  import opened Confluence

  // ----- what a derived operation reads and adds -----

  /** A window as it is executed: its group columns and its metrics. */
  datatype Window = Window(groupBy: seq<ColumnKey>, metrics: seq<Metric>)

  function WindowOf(rt: Runtime, op: Operation): Outcome<Window> {
    var g :- GroupingOf(op);
    var metrics :- ParseMetrics(rt, g.items);
    Ok(Window(g.groupBy, metrics))
  }

  /** A derived operation as the plan check accepts it; a window keeps its group columns. */
  predicate WellFormed(rt: Runtime, op: Operation) {
    if IsRowWise(op.kind) then OperationAccepted(op)
    else op.kind.WindowAggregate? && WindowOf(rt, op).Ok? && GroupsKept(WindowOf(rt, op).value)
  }

  predicate GroupsKept(w: Window) {
    forall m | m in w.metrics :: m.target !in w.groupBy && Named(m.targetText) !in w.groupBy
  }

  function Reads(rt: Runtime, op: Operation): set<ColumnKey>
    requires WellFormed(rt, op)
  {
    if IsRowWise(op.kind) then ToSet(op.sources) else WindowReads(WindowOf(rt, op).value)
  }

  function WindowReads(w: Window): set<ColumnKey> {
    ToSet(w.groupBy) + set m | m in w.metrics :: m.column
  }

  function Writes(rt: Runtime, op: Operation): set<ColumnKey>
    requires WellFormed(rt, op)
  {
    if IsRowWise(op.kind) then {TargetName(op)} else Labels(WindowOf(rt, op).value.metrics)
  }

  function WindowAdditions(rt: Runtime, rows: seq<Row>, w: Window): seq<Row> {
    seq(|rows|, i requires 0 <= i < |rows| =>
      WindowValues(rt, w.metrics, Members(rows, By(w.groupBy), KeyOf(rows[i], w.groupBy))))
  }

  /** The columns an operation adds to each row, computed from the table before it. */
  function Additions(rt: Runtime, op: Operation, rows: seq<Row>): Outcome<seq<Row>>
    requires WellFormed(rt, op)
  {
    if IsRowWise(op.kind) then
      var checked :- Precheck(op);
      var values :- DerivedValues(rt, op, rows);
      Ok(seq(|rows|, i requires 0 <= i < |rows| => map[TargetName(op) := values[i]]))
    else
      var w := WindowOf(rt, op).value;
      if AllGroupable(rows, w.groupBy) then Ok(WindowAdditions(rt, rows, w)) else Err(Unhashable)
  }

  lemma AdditionsShape(rt: Runtime, op: Operation, rows: seq<Row>)
    requires WellFormed(rt, op) && Additions(rt, op, rows).Ok?
    ensures Shaped(Additions(rt, op, rows).value, rows, Writes(rt, op))
  {}

  /** Executing a derived operation is adding its columns to the rows. */
  lemma ExecuteIsMerge(rt: Runtime, op: Operation, table: Table)
    requires WellFormed(rt, op)
    ensures match Additions(rt, op, table.rows)
            case Err(e) => ExecuteOperation(rt, op, table) == Err(e)
            case Ok(added) =>
              && ExecuteOperation(rt, op, table).Ok?
              && |added| == |table.rows|
              && ExecuteOperation(rt, op, table).value.rows == Merge(table.rows, added)
  {
    if IsRowWise(op.kind) {
      DeriveIsMerge(rt, op, table.rows);
    } else {
      WindowIsMerge(rt, GroupingOf(op).value, WindowOf(rt, op).value, table);
    }
  }

  lemma DeriveIsMerge(rt: Runtime, op: Operation, rows: seq<Row>)
    requires IsRowWise(op.kind) && WellFormed(rt, op)
    ensures match Additions(rt, op, rows)
            case Err(e) => Derive(rt, op, rows) == Err(e)
            case Ok(added) => |added| == |rows| && Derive(rt, op, rows) == Ok(Merge(rows, added))
  {
    if Derive(rt, op, rows).Ok? {
      var derived, added := Derive(rt, op, rows).value, Additions(rt, op, rows).value;
      forall i | 0 <= i < |rows| ensures derived[i] == rows[i] + added[i] {
        var v := DerivedValues(rt, op, rows).value[i];
        assert rows[i][TargetName(op) := v] == rows[i] + map[TargetName(op) := v];
      }
      assert derived == Merge(rows, added);
    }
  }

  lemma WindowIsMerge(rt: Runtime, g: Grouping, w: Window, table: Table)
    requires GroupsKept(w) && g.groupBy == w.groupBy && ParseMetrics(rt, g.items) == Ok(w.metrics)
    ensures var r := ExecuteWindow(rt, g, table);
      if AllGroupable(table.rows, w.groupBy)
      then r.Ok? && r.value.rows == Merge(table.rows, WindowAdditions(rt, table.rows, w))
      else r == Err(Unhashable)
  {
    assert KeepsKeys(w.groupBy, w.metrics) && LabelsApart(w.groupBy, w.metrics);
    WindowMeetsDefinition(rt, table.rows, w.groupBy, w.metrics);
    LabelsListed(rt, g.items);
    assert WindowDefinition(rt, table.rows, w.groupBy, w.metrics)
         == Merge(table.rows, WindowAdditions(rt, table.rows, w));
  }

  // ----- additions depend only on the columns read -----

  lemma DerivedValueLocal(rt: Runtime, op: Operation, a: Row, b: Row)
    requires IsRowWise(op.kind) && OperationAccepted(op) && Agree(a, b, ToSet(op.sources))
    ensures DerivedValue(rt, op, a) == DerivedValue(rt, op, b)
  {
    if IsExpression(op.kind) {
      OperationLocal(rt, ExpressionName(op.kind), op.parameters, a, b);
    } else {
      assert op.sources[0] in ToSet(op.sources);
    }
  }

  lemma {:induction false} DerivedValuesLocal(rt: Runtime, op: Operation, a: seq<Row>, b: seq<Row>)
    requires IsRowWise(op.kind) && OperationAccepted(op) && AgreeAll(a, b, ToSet(op.sources))
    ensures DerivedValues(rt, op, a) == DerivedValues(rt, op, b)
  {
    if a != [] {
      var n := |a| - 1;
      DerivedValuesLocal(rt, op, a[..n], b[..n]);
      DerivedValueLocal(rt, op, a[n], b[n]);
    }
  }

  lemma KeyLocal(a: Row, b: Row, groupBy: seq<ColumnKey>)
    requires Agree(a, b, ToSet(groupBy))
    ensures KeyOf(a, groupBy) == KeyOf(b, groupBy) && (Groupable(a, groupBy) <==> Groupable(b, groupBy))
  {
    forall i | 0 <= i < |groupBy| ensures Get(a, groupBy[i]) == Get(b, groupBy[i]) {
      assert groupBy[i] in ToSet(groupBy);
    }
  }

  lemma {:induction false} MembersLocal(a: seq<Row>, b: seq<Row>, keyOf: Row -> Key, key: Key, columns: set<ColumnKey>)
    requires AgreeAll(a, b, columns)
    requires forall i | 0 <= i < |a| :: keyOf(a[i]) == keyOf(b[i])
    ensures AgreeAll(Members(a, keyOf, key), Members(b, keyOf, key), columns)
  {
    if a != [] {
      var n := |a| - 1;
      MembersLocal(a[..n], b[..n], keyOf, key, columns);
      assert Agree(a[n], b[n], columns) && keyOf(a[n]) == keyOf(b[n]);
    }
  }

  lemma {:induction false} PresentLocal(a: seq<Row>, b: seq<Row>, column: ColumnKey, columns: set<ColumnKey>)
    requires AgreeAll(a, b, columns) && column in columns
    ensures Present(a, column) == Present(b, column)
  {
    if a != [] {
      var n := |a| - 1;
      PresentLocal(a[..n], b[..n], column, columns);
      assert Agree(a[n], b[n], columns);
    }
  }

  lemma {:induction false} MetricsLocal(
    rt: Runtime, metrics: seq<Metric>, a: seq<Row>, b: seq<Row>, columns: set<ColumnKey>)
    requires AgreeAll(a, b, columns) && forall m | m in metrics :: m.column in columns
    ensures MetricValues(rt, metrics, a) == MetricValues(rt, metrics, b)
  {
    if metrics != [] {
      var n := |metrics| - 1;
      MetricsLocal(rt, metrics[..n], a, b, columns);
      PresentLocal(a, b, metrics[n].column, columns);
    }
  }

  lemma KeysLocal(w: Window, a: seq<Row>, b: seq<Row>)
    requires AgreeAll(a, b, WindowReads(w))
    ensures forall i | 0 <= i < |a| :: By(w.groupBy)(a[i]) == By(w.groupBy)(b[i])
    ensures AllGroupable(a, w.groupBy) <==> AllGroupable(b, w.groupBy)
  {
    forall i | 0 <= i < |a|
      ensures KeyOf(a[i], w.groupBy) == KeyOf(b[i], w.groupBy)
      ensures Groupable(a[i], w.groupBy) <==> Groupable(b[i], w.groupBy)
    {
      KeyLocal(a[i], b[i], w.groupBy);
    }
    assert forall i | 0 <= i < |a| :: a[i] in a && b[i] in b;
  }

  lemma ValuesLocal(rt: Runtime, w: Window, a: seq<Row>, b: seq<Row>, key: Key)
    requires AgreeAll(a, b, WindowReads(w))
    requires forall i | 0 <= i < |a| :: By(w.groupBy)(a[i]) == By(w.groupBy)(b[i])
    ensures WindowValues(rt, w.metrics, Members(a, By(w.groupBy), key))
         == WindowValues(rt, w.metrics, Members(b, By(w.groupBy), key))
  {
    MembersLocal(a, b, By(w.groupBy), key, WindowReads(w));
    MetricsLocal(rt, w.metrics, Members(a, By(w.groupBy), key), Members(b, By(w.groupBy), key), WindowReads(w));
  }

  lemma WindowLocal(rt: Runtime, w: Window, a: seq<Row>, b: seq<Row>)
    requires AgreeAll(a, b, WindowReads(w))
    ensures AllGroupable(a, w.groupBy) <==> AllGroupable(b, w.groupBy)
    ensures WindowAdditions(rt, a, w) == WindowAdditions(rt, b, w)
  {
    KeysLocal(w, a, b);
    forall i | 0 <= i < |a| ensures WindowAdditions(rt, a, w)[i] == WindowAdditions(rt, b, w)[i] {
      ValuesLocal(rt, w, a, b, KeyOf(a[i], w.groupBy));
      assert By(w.groupBy)(a[i]) == By(w.groupBy)(b[i]);
    }
  }

  lemma AdditionsLocal(rt: Runtime, op: Operation, a: seq<Row>, b: seq<Row>)
    requires WellFormed(rt, op) && AgreeAll(a, b, Reads(rt, op))
    ensures Additions(rt, op, a) == Additions(rt, op, b)
  {
    if IsRowWise(op.kind) {
      DerivedValuesLocal(rt, op, a, b);
    } else {
      WindowLocal(rt, WindowOf(rt, op).value, a, b);
    }
  }

  // ----- the semantics of derived operations -----

  function DerivedSemantics(rt: Runtime): Semantics {
    Semantics(
      (op: Operation) => if WellFormed(rt, op) then Reads(rt, op) else {},
      (op: Operation) => if WellFormed(rt, op) then Writes(rt, op) else {},
      (op: Operation, rows: seq<Row>) => if WellFormed(rt, op) then Additions(rt, op, rows) else Err(BadExpression))
  }

  predicate AllWellFormed(rt: Runtime, operations: seq<Operation>) {
    forall op | op in operations :: WellFormed(rt, op)
  }

  lemma DerivedBehaves(rt: Runtime, op: Operation)
    requires WellFormed(rt, op)
    ensures Behaves(DerivedSemantics(rt), op)
  {
    var m := DerivedSemantics(rt);
    forall rows: seq<Row> | m.add(op, rows).Ok? ensures Shaped(m.add(op, rows).value, rows, m.outputs(op)) {
      AdditionsShape(rt, op, rows);
    }
    forall a, b | AgreeAll(a, b, m.inputs(op)) ensures m.add(op, a) == m.add(op, b) {
      AdditionsLocal(rt, op, a, b);
    }
  }

  /** Executing derived operations is running their semantics. */
  lemma {:induction false} ExecuteIsRun(rt: Runtime, operations: seq<Operation>, table: Table)
    requires AllWellFormed(rt, operations)
    ensures match Run(DerivedSemantics(rt), operations, table.rows)
            case Err(e) => ExecuteAll(rt, operations, table) == Err(e)
            case Ok(rows) =>
              ExecuteAll(rt, operations, table).Ok? && ExecuteAll(rt, operations, table).value.rows == rows
    decreases |operations|
  {
    if operations != [] {
      assert operations[0] in operations;
      ExecuteIsMerge(rt, operations[0], table);
      var next := ExecuteOperation(rt, operations[0], table);
      if next.Ok? { ExecuteIsRun(rt, operations[1..], next.value); }
    }
  }

  ghost predicate SameRows(a: Outcome<Table>, b: Outcome<Table>) {
    (a.Ok? <==> b.Ok?) && (a.Ok? ==> a.value.rows == b.value.rows)
  }

  /**
   Two dependency-respecting orders of the same derived operations, windows included, leave
   the executor with the same rows, or stop it both times.
   */
  lemma DerivedOrdersAgree(rt: Runtime, a: seq<Operation>, b: seq<Operation>, table: Table)
    requires multiset(a) == multiset(b) && AllWellFormed(rt, a) && AllWellFormed(rt, b)
    requires DependencyOrdered(DerivedSemantics(rt), a) && DependencyOrdered(DerivedSemantics(rt), b)
    ensures SameRows(ExecuteAll(rt, a, table), ExecuteAll(rt, b, table))
  {
    forall op | op in a ensures Behaves(DerivedSemantics(rt), op) { DerivedBehaves(rt, op); }
    OrdersAgree(DerivedSemantics(rt), a, b, table.rows);
    ExecuteIsRun(rt, a, table);
    ExecuteIsRun(rt, b, table);
  }

  /** Two derived operations commute when neither reads or writes what the other writes. */
  lemma IndependentCommute(rt: Runtime, a: Operation, b: Operation, table: Table)
    requires WellFormed(rt, a) && WellFormed(rt, b)
    requires Reads(rt, a) !! Writes(rt, b) && Reads(rt, b) !! Writes(rt, a) && Writes(rt, a) !! Writes(rt, b)
    ensures SameRows(ExecuteAll(rt, [a, b], table), ExecuteAll(rt, [b, a], table))
  {
    DerivedBehaves(rt, a);
    DerivedBehaves(rt, b);
    AdjacentCommute(DerivedSemantics(rt), a, b, table.rows);
    ExecuteIsRun(rt, [a, b], table);
    ExecuteIsRun(rt, [b, a], table);
  }

  // ----- the computed order -----

  /** The declared sources and target of an operation are what it reads and writes. */
  predicate Declared(rt: Runtime, op: Operation) {
    WellFormed(rt, op) && HasTarget(op) && Reads(rt, op) <= ToSet(op.sources) && Writes(rt, op) == {TargetOf(op)}
  }

  lemma RowWiseDeclared(rt: Runtime, op: Operation)
    requires IsRowWise(op.kind) && OperationAccepted(op)
    ensures Declared(rt, op)
  {}

  lemma RespectingIsOrdered(rt: Runtime, operations: seq<Operation>, sources: set<ColumnKey>)
    requires forall op | op in operations :: Declared(rt, op)
    requires UniqueTargets(operations) && sources * TargetsOf(operations) == {} && Respects(operations, sources)
    ensures AllWellFormed(rt, operations) && DependencyOrdered(DerivedSemantics(rt), operations)
  {
    var m := DerivedSemantics(rt);
    forall i | 0 <= i < |operations|
      ensures m.inputs(operations[i]) <= sources + TargetsOf(operations[..i])
      ensures m.outputs(operations[i]) == {TargetOf(operations[i])}
    {
      assert operations[i] in operations && Ready(operations[i], sources + TargetsOf(operations[..i]));
    }
    forall i, j | 0 <= i <= j < |operations| ensures TargetOf(operations[j]) !in sources + TargetsOf(operations[..i]) {
      var t := TargetOf(operations[j]);
      assert operations[j] in operations && t in TargetsOf(operations);
      assert t in sources ==> t in sources * TargetsOf(operations);
      forall op | op in operations[..i] ensures TargetOf(op) != t {
        var k :| 0 <= k < i && operations[k] == op;
        assert k < j;
      }
    }
  }

  /**
   Replacing any valid order of declared derived operations by the computed order succeeds and
   never changes the rows, nor whether execution stops.
   */
  lemma ReorderingPreservesRows(rt: Runtime, operations: seq<Operation>, sources: set<ColumnKey>, table: Table)
    requires operations != [] && forall op | op in operations :: IsDerived(op.kind) && Declared(rt, op)
    requires WellTargeted(operations, sources) && Respects(operations, sources)
    ensures Order(operations, sources).Ordered?
    ensures SameRows(ExecuteAll(rt, Order(operations, sources).operations, table), ExecuteAll(rt, operations, table))
  {
    assert operations + [] == operations;
    Resplit(operations, []);
    assert Orderable(operations, sources);
    OrderOutcome(operations, sources);
    var ordered := OrderSound(operations, sources);
    assert ordered + [] == ordered;
    PermutedTargets(operations, ordered);
    RespectingIsOrdered(rt, operations, sources);
    RespectingIsOrdered(rt, ordered, sources);
    DerivedOrdersAgree(rt, operations, ordered, table);
  }

  // ----- why only derived operations -----

  lemma OthersMoveLast(other: Operation, derived: Operation, sources: set<ColumnKey>)
    requires !IsDerived(other.kind) && IsDerived(derived.kind)
    requires HasTarget(derived) && TargetOf(derived) !in sources && Ready(derived, sources)
    ensures Order([other, derived], sources) == Ordered([derived, other])
  {
    assert [other, derived][1..] == [derived] && [derived][1..] == [];
    assert DerivedOf([derived]) == [derived] && RemainingOf([derived]) == [];
    assert DerivedOf([other, derived]) == [derived] && RemainingOf([other, derived]) == [other];
    assert ReadyIn([], sources) == [] && BlockedIn([], sources) == [];
    assert ReadyIn([derived], sources) == [derived];
    assert BlockedIn([derived], sources) == BlockedIn([], sources);
    assert Rounds([], sources + TargetsOf([derived])) == Done([]);
    assert Rounds([derived], sources) == Done([derived] + []);
    assert sources * TargetsOf([derived]) == {};
  }

  /** A projection before a derivation moves behind it, and then drops the derived column. */
  lemma ReorderingDropsColumn(rt: Runtime, select: Operation, derived: Operation, sources: set<ColumnKey>)
    requires select.kind.SelectColumns? && CheckOperation(rt, select, sources).Available?
    requires IsRowWise(derived.kind) && OperationAccepted(derived) && TargetOf(derived) !in sources
    requires ToSet(derived.sources) <= CheckOperation(rt, select, sources).columns
    ensures var kept := CheckOperation(rt, select, sources).columns;
      && CheckOperations(rt, [select, derived], sources) == Available(kept + {TargetOf(derived)})
      && Order([select, derived], sources) == Ordered([derived, select])
      && CheckOperations(rt, [derived, select], sources) == Available(kept)
      && TargetOf(derived) !in kept
  {
    var kept := CheckOperation(rt, select, sources).columns;
    assert kept <= sources;
    OthersMoveLast(select, derived, sources);
    assert [select, derived][1..] == [derived] && [derived, select][1..] == [select];
    assert [derived][1..] == [] && [select][1..] == [];
    assert CheckOperations(rt, [derived], kept) == Available(kept + {TargetOf(derived)});
    assert CheckOperation(rt, derived, sources) == Available(sources + {TargetOf(derived)});
    assert CheckOperations(rt, [select], sources + {TargetOf(derived)}) == Available(kept);
  }
}
