/**
 Confluence of column-adding steps, for any semantics that says which columns a step reads,
 which it writes, and what it adds to each row.
 */
module Confluence {
  import opened Values
  import opened ProcessingPlan
  import opened Expressions

  datatype Semantics = Semantics(
    inputs: Operation -> set<ColumnKey>,
    outputs: Operation -> set<ColumnKey>,
    add: (Operation, seq<Row>) -> Outcome<seq<Row>>)

  predicate AgreeAll(a: seq<Row>, b: seq<Row>, columns: set<ColumnKey>) {
    |a| == |b| && forall i | 0 <= i < |a| :: Agree(a[i], b[i], columns)
  }

  function Merge(rows: seq<Row>, added: seq<Row>): seq<Row>
    requires |rows| == |added|
  {
    seq(|rows|, i requires 0 <= i < |rows| => rows[i] + added[i])
  }

  predicate Shaped(added: seq<Row>, rows: seq<Row>, columns: set<ColumnKey>) {
    |added| == |rows| && forall i | 0 <= i < |added| :: added[i].Keys == columns
  }

  /** A step adds exactly its output columns, and what it adds depends only on its inputs. */
  ghost predicate Behaves(m: Semantics, op: Operation) {
    && (forall rows :: m.add(op, rows).Ok? ==> Shaped(m.add(op, rows).value, rows, m.outputs(op)))
    && (forall a, b :: AgreeAll(a, b, m.inputs(op)) ==> m.add(op, a) == m.add(op, b))
  }

  ghost predicate AllBehave(m: Semantics, operations: seq<Operation>) {
    forall op | op in operations :: Behaves(m, op)
  }

  function Run(m: Semantics, operations: seq<Operation>, rows: seq<Row>): Outcome<seq<Row>>
    decreases |operations|
  {
    if operations == [] then Ok(rows)
    else
      var added :- m.add(operations[0], rows);
      if |added| != |rows| then Err(BadExpression) else Run(m, operations[1..], Merge(rows, added))
  }

  function WritesOf(m: Semantics, operations: seq<Operation>): set<ColumnKey> {
    set op, c | op in operations && c in m.outputs(op) :: c
  }

  /** No step reads what it or a later one writes, and no column is written twice. */
  predicate DependencyOrdered(m: Semantics, operations: seq<Operation>) {
    && (forall i, j | 0 <= i <= j < |operations| :: m.inputs(operations[i]) !! m.outputs(operations[j]))
    && (forall i, j | 0 <= i < j < |operations| :: m.outputs(operations[i]) !! m.outputs(operations[j]))
  }

  lemma HeadIsolated(m: Semantics, operations: seq<Operation>)
    requires operations != [] && DependencyOrdered(m, operations)
    ensures DependencyOrdered(m, operations[1..])
    ensures m.inputs(operations[0]) !! WritesOf(m, operations)
    ensures m.outputs(operations[0]) !! WritesOf(m, operations[1..])
    ensures WritesOf(m, operations) == m.outputs(operations[0]) + WritesOf(m, operations[1..])
  {
    var rest := operations[1..];
    assert forall op | op in operations :: op == operations[0] || op in rest;
    forall op | op in rest
      ensures m.inputs(operations[0]) !! m.outputs(op) && m.outputs(operations[0]) !! m.outputs(op)
    {
      var j :| 0 <= j < |rest| && rest[j] == op;
      assert operations[j + 1] == op;
    }
  }

  // ----- the common solution -----

  /** Rows a and b have the same entry, or both none, at a column. */
  predicate SameAt(a: Row, b: Row, c: ColumnKey) {
    (c in a <==> c in b) && (c in a ==> a[c] == b[c])
  }

  /** Tables a and b differ at most in `columns`. */
  ghost predicate SameOutside(a: seq<Row>, b: seq<Row>, columns: set<ColumnKey>) {
    |a| == |b| && forall i, c | 0 <= i < |a| && c !in columns :: SameAt(a[i], b[i], c)
  }

  /** Table `rows` already holds what was added. */
  predicate Holds(rows: seq<Row>, added: seq<Row>, columns: set<ColumnKey>) {
    |added| == |rows| && forall i, c | 0 <= i < |rows| && c in columns :: c in added[i] && SameAt(added[i], rows[i], c)
  }

  /** What `op` adds to `rows` is already what `rows` holds. */
  predicate Solved(m: Semantics, op: Operation, rows: seq<Row>) {
    m.add(op, rows).Ok? && Holds(rows, m.add(op, rows).value, m.outputs(op))
  }

  lemma OutsideAgrees(a: seq<Row>, b: seq<Row>, columns: set<ColumnKey>, needed: set<ColumnKey>)
    requires SameOutside(a, b, columns) && needed !! columns
    ensures AgreeAll(a, b, needed) && AgreeAll(b, a, needed)
  {
    forall i, c | 0 <= i < |a| && c in needed ensures Get(a[i], c) == Get(b[i], c) {
      assert SameAt(a[i], b[i], c);
    }
  }

  /** If `next` is `rows` with columns added, then a solution of what follows keeps them. */
  lemma AddedKept(rows: seq<Row>, added: seq<Row>, columns: set<ColumnKey>, later: set<ColumnKey>, solution: seq<Row>)
    requires Shaped(added, rows, columns) && columns !! later
    requires SameOutside(Merge(rows, added), solution, later)
    ensures SameOutside(rows, solution, columns + later) && Holds(solution, added, columns)
  {
    var next := Merge(rows, added);
    forall i, c | 0 <= i < |rows| && c !in columns + later ensures SameAt(rows[i], solution[i], c) {
      assert added[i].Keys == columns && SameAt(next[i], solution[i], c);
    }
    forall i, c | 0 <= i < |rows| && c in columns ensures c in added[i] && SameAt(added[i], solution[i], c) {
      assert added[i].Keys == columns && SameAt(next[i], solution[i], c);
    }
  }

  /** Conversely, adding what a solution holds leaves a difference only in what follows. */
  lemma HeldAdded(rows: seq<Row>, added: seq<Row>, columns: set<ColumnKey>, later: set<ColumnKey>, solution: seq<Row>)
    requires Shaped(added, rows, columns)
    requires SameOutside(rows, solution, columns + later) && Holds(solution, added, columns)
    ensures SameOutside(Merge(rows, added), solution, later)
  {
    var next := Merge(rows, added);
    forall i, c | 0 <= i < |next| && c !in later ensures SameAt(next[i], solution[i], c) {
      assert added[i].Keys == columns;
      if c !in columns { assert c !in columns + later && SameAt(rows[i], solution[i], c); }
    }
  }

  /** A run's result solves every step it ran. */
  lemma {:induction false} RunSolves(m: Semantics, operations: seq<Operation>, rows: seq<Row>)
    requires AllBehave(m, operations) && DependencyOrdered(m, operations) && Run(m, operations, rows).Ok?
    ensures var solution := Run(m, operations, rows).value;
      && SameOutside(rows, solution, WritesOf(m, operations))
      && forall op | op in operations :: Solved(m, op, solution)
    decreases |operations|
  {
    if operations != [] {
      var op, rest := operations[0], operations[1..];
      HeadIsolated(m, operations);
      assert Behaves(m, op);
      var added := m.add(op, rows).value;
      RunSolves(m, rest, Merge(rows, added));
      var solution := Run(m, operations, rows).value;
      AddedKept(rows, added, m.outputs(op), WritesOf(m, rest), solution);
      OutsideAgrees(rows, solution, WritesOf(m, operations), m.inputs(op));
      assert m.add(op, solution) == m.add(op, rows);
    }
  }

  /** Any valid order, from rows that differ from a solution only in its own writes, reaches it. */
  lemma {:induction false} SolutionReached(m: Semantics, operations: seq<Operation>, rows: seq<Row>, solution: seq<Row>)
    requires AllBehave(m, operations) && DependencyOrdered(m, operations)
    requires SameOutside(rows, solution, WritesOf(m, operations))
    requires forall op | op in operations :: Solved(m, op, solution)
    ensures Run(m, operations, rows) == Ok(solution)
    decreases |operations|
  {
    if operations == [] {
      forall i | 0 <= i < |rows| ensures rows[i] == solution[i] {
        assert forall c :: c !in WritesOf(m, []) ==> SameAt(rows[i], solution[i], c);
        assert forall c :: c in rows[i] ==> SameAt(rows[i], solution[i], c);
        assert forall c :: c in solution[i] ==> SameAt(rows[i], solution[i], c);
      }
      assert rows == solution;
    } else {
      var op, rest := operations[0], operations[1..];
      HeadIsolated(m, operations);
      assert Behaves(m, op) && Solved(m, op, solution);
      OutsideAgrees(rows, solution, WritesOf(m, operations), m.inputs(op));
      assert m.add(op, solution) == m.add(op, rows);
      var added := m.add(op, rows).value;
      HeldAdded(rows, added, m.outputs(op), WritesOf(m, rest), solution);
      SolutionReached(m, rest, Merge(rows, added), solution);
    }
  }

  /** Two dependency-respecting orders of the same steps give the same rows, or both stop. */
  lemma OrdersAgree(m: Semantics, a: seq<Operation>, b: seq<Operation>, rows: seq<Row>)
    requires multiset(a) == multiset(b) && AllBehave(m, a)
    requires DependencyOrdered(m, a) && DependencyOrdered(m, b)
    ensures Run(m, a, rows).Ok? <==> Run(m, b, rows).Ok?
    ensures Run(m, a, rows).Ok? ==> Run(m, a, rows) == Run(m, b, rows)
  {
    assert forall op :: op in a <==> op in multiset(a);
    assert forall op :: op in b <==> op in multiset(b);
    assert WritesOf(m, a) == WritesOf(m, b);
    if Run(m, a, rows).Ok? {
      RunSolves(m, a, rows);
      SolutionReached(m, b, rows, Run(m, a, rows).value);
    } else if Run(m, b, rows).Ok? {
      RunSolves(m, b, rows);
      SolutionReached(m, a, rows, Run(m, b, rows).value);
    }
  }

  // ----- two independent steps -----

  lemma TwoSteps(m: Semantics, a: Operation, b: Operation, rows: seq<Row>)
    requires Behaves(m, a) && Behaves(m, b) && m.inputs(b) !! m.outputs(a)
    ensures var x, y := m.add(a, rows), m.add(b, rows);
      if x.Ok? && y.Ok? then
        |x.value| == |y.value| == |rows| && Run(m, [a, b], rows) == Ok(Merge(Merge(rows, x.value), y.value))
      else Run(m, [a, b], rows).Err?
  {
    assert [a, b][1..] == [b] && [b][1..] == [];
    if m.add(a, rows).Ok? {
      var x := m.add(a, rows).value;
      assert Shaped(x, rows, m.outputs(a));
      var next := Merge(rows, x);
      assert SameOutside(rows, next, m.outputs(a));
      OutsideAgrees(rows, next, m.outputs(a), m.inputs(b));
      assert m.add(b, next) == m.add(b, rows);
      if m.add(b, rows).Ok? {
        var y := m.add(b, rows).value;
        assert Shaped(y, rows, m.outputs(b));
        assert Run(m, [], Merge(next, y)) == Ok(Merge(next, y));
        assert Run(m, [b], next) == Ok(Merge(next, y));
      }
    }
  }

  lemma MergesCommute(rows: seq<Row>, x: seq<Row>, y: seq<Row>, a: set<ColumnKey>, b: set<ColumnKey>)
    requires Shaped(x, rows, a) && Shaped(y, rows, b) && a !! b
    ensures Merge(Merge(rows, x), y) == Merge(Merge(rows, y), x)
  {
    forall i | 0 <= i < |rows| ensures rows[i] + x[i] + y[i] == rows[i] + y[i] + x[i] {
      assert x[i].Keys == a && y[i].Keys == b;
    }
  }

  /** Two steps commute when neither reads or writes what the other writes. */
  lemma AdjacentCommute(m: Semantics, a: Operation, b: Operation, rows: seq<Row>)
    requires Behaves(m, a) && Behaves(m, b)
    requires m.inputs(a) !! m.outputs(b) && m.inputs(b) !! m.outputs(a) && m.outputs(a) !! m.outputs(b)
    ensures Run(m, [a, b], rows).Ok? <==> Run(m, [b, a], rows).Ok?
    ensures Run(m, [a, b], rows).Ok? ==> Run(m, [a, b], rows) == Run(m, [b, a], rows)
  {
    TwoSteps(m, a, b, rows);
    TwoSteps(m, b, a, rows);
    if m.add(a, rows).Ok? && m.add(b, rows).Ok? {
      MergesCommute(rows, m.add(a, rows).value, m.add(b, rows).value, m.outputs(a), m.outputs(b));
    }
  }
}
