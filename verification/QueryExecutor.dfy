/**
 The SQL statement built for a query plan, and what it returns on a database.
 Follows `build_statement`, `_joined_source` and `_sql_condition` in
 agent_runtime/query/executors.py.  SQL's three-valued logic is explicit; how a filter value is
 converted to a column's type, and how it then compares, are parameters.
 */
module QueryExecutor {
  import opened Values
  import opened QueryRegistry
  import opened SelectionQuery

  /** A table's own column. */
  datatype Origin = Origin(table: Table, column: Column)

  datatype Source =
    | Base(table: Table)
    | Join(left: Source, table: Table, on: Origin, key: Column, outer: bool)

  /** `GROUP BY dimensions HAVING count(distinct key) >= minimum`, as a semi-join. */
  datatype Guard = Guard(dimensions: seq<Origin>, key: Origin, minimum: nat)

  datatype Test = Test(origin: Origin, condition: FilterCondition)

  datatype Statement = Statement(
    source: Source, columns: seq<Origin>, tests: seq<Test>, guard: Option<Guard>, limit: int)

  datatype Cell = NullCell | Data(value: Value)

  datatype Truth = Yes | No | Unknown

  datatype Sql = Sql(coerces: FilterCondition -> bool, holds: (FilterCondition, Cell) -> Truth, configured: int) {
    /** How many distinct customers a returned group must have. */
    function K(): nat { MinimumGroup(configured) }
  }

  // ----- the joined source -----

  function Tables(datasets: seq<Dataset>): set<Table> { set d | d in datasets :: TableOf(d) }

  const MERCHANT_ID := Origin(TransactionTable, MerchantId)
  const TRANSACTION_MCC := Origin(TransactionTable, MccCode)
  const TRANSACTION_CARD := Origin(TransactionTable, CardNumberMasked)
  const CARD_CUSTOMER := Origin(CardTable, CustomerId)
  const CUSTOMER := Origin(CustomerTable, CustomerId)

  datatype Part = Part(source: Source, available: seq<Table>) {
    function With(t: Table, on: Origin, outer: bool): Part {
      Part(Join(source, t, on, on.column, outer), available + [t])
    }
  }

  function WithMerchants(tables: set<Table>): Part {
    var base := Part(Base(TransactionTable), [TransactionTable]);
    if MerchantTable in tables then base.With(MerchantTable, MERCHANT_ID, true) else base
  }

  function WithMccCodes(tables: set<Table>): Part {
    var base := WithMerchants(tables);
    if MccTable in tables then base.With(MccTable, TRANSACTION_MCC, false) else base
  }

  function WithCards(tables: set<Table>): Part { WithMccCodes(tables).With(CardTable, TRANSACTION_CARD, false) }

  /** Transactions with the tables a plan names; customers are reached through their cards. */
  function TransactionSource(tables: set<Table>): Part {
    if CustomerTable in tables then WithCards(tables).With(CustomerTable, CARD_CUSTOMER, false)
    else WithMccCodes(tables)
  }

  /** `_joined_source`: the source and its tables in the order their columns are looked up. */
  function JoinedSource(datasets: seq<Dataset>): Planned<Part>
    requires datasets != []
  {
    var tables := Tables(datasets);
    if TransactionTable in tables then Accepted(TransactionSource(tables))
    else if MccTable in tables && MerchantTable in tables && CustomerTable !in tables then
      Accepted(Part(Base(MerchantTable), [MerchantTable]).With(MccTable, Origin(MerchantTable, MccCode), false))
    else if CustomerTable in tables && (MerchantTable in tables || MccTable in tables) then Refused(Unjoinable)
    else Accepted(Part(Base(TableOf(datasets[0])), [TableOf(datasets[0])]))
  }

  /** The first table that has the column. */
  function Lookup(available: seq<Table>, c: Column): (r: Option<Origin>)
    ensures r.Some? <==> exists t :: t in available && c in TableColumns(t)
    ensures r.Some? ==> r.value.column == c && r.value.table in available && c in TableColumns(r.value.table)
  {
    if available == [] then None
    else if c in TableColumns(available[0]) then Some(Origin(available[0], c))
    else Lookup(available[1..], c)
  }

  /** The map holds exactly what looking columns up in these tables finds. */
  ghost predicate IsColumnMap(m: map<Column, Origin>, available: seq<Table>) {
    forall c :: Lookup(available, c) == if c in m then Some(m[c]) else None
  }

  method ColumnMap(available: seq<Table>) returns (m: map<Column, Origin>)
    ensures IsColumnMap(m, available)
  {
    m := map[];
    for i := 0 to |available|
      invariant IsColumnMap(m, available[..i])
    {
      ColumnMapNext(m, available[..i], available[i]);
      assert available[..i + 1] == available[..i] + [available[i]];
      m := WithTable(m, available[i]);
    }
    assert available[..|available|] == available;
  }

  /** Adds the table's columns whose names are not taken. */
  function WithTable(m: map<Column, Origin>, t: Table): map<Column, Origin> {
    m + map c | c in TableColumns(t) && c !in m :: Origin(t, c)
  }

  lemma ColumnMapNext(m: map<Column, Origin>, available: seq<Table>, t: Table)
    requires IsColumnMap(m, available)
    ensures IsColumnMap(WithTable(m, t), available + [t])
  {
    forall c ensures Lookup(available + [t], c) == if c in WithTable(m, t) then Some(WithTable(m, t)[c]) else None {
      LookupAppend(available, t, c);
    }
  }

  lemma {:induction false} LookupAppend(available: seq<Table>, t: Table, c: Column)
    ensures Lookup(available + [t], c)
         == if Lookup(available, c).Some? then Lookup(available, c)
           else if c in TableColumns(t) then Some(Origin(t, c)) else None
  {
    if available == [] {
      assert available + [t] == [t];
      assert [t][1..] == [];
    } else {
      assert (available + [t])[1..] == available[1..] + [t];
      LookupAppend(available[1..], t, c);
    }
  }

  // ----- the statement -----

  function OriginsOf(available: seq<Table>, columns: seq<Column>): Planned<seq<Origin>> {
    if columns == [] then Accepted([])
    else
      match OriginsOf(available, columns[..|columns| - 1])
      case Refused(e) => Refused(e)
      case Accepted(before) =>
        match Lookup(available, columns[|columns| - 1])
        case None => Refused(ColumnUnavailable)
        case Some(o) => Accepted(before + [o])
  }

  function TestsOf(sql: Sql, available: seq<Table>, filters: seq<FilterCondition>): Planned<seq<Test>> {
    if filters == [] then Accepted([])
    else
      var f := filters[|filters| - 1];
      match TestsOf(sql, available, filters[..|filters| - 1])
      case Refused(e) => Refused(e)
      case Accepted(before) =>
        match Lookup(available, f.column)
        case None => Refused(ColumnUnavailable)
        case Some(o) => if sql.coerces(f) then Accepted(before + [Test(o, f)]) else Refused(BadFilterValue)
  }

  function Dimensions(columns: seq<Origin>): seq<Origin> {
    if columns == [] then []
    else
      var before := Dimensions(columns[..|columns| - 1]);
      if columns[|columns| - 1].column in QUASI_IDENTIFIERS then before + [columns[|columns| - 1]] else before
  }

  function PersonCount(columns: seq<Origin>): nat {
    if columns == [] then 0
    else PersonCount(columns[..|columns| - 1]) + if columns[|columns| - 1].column in PERSON_ATTRIBUTES then 1 else 0
  }

  /** `build_statement`. */
  function StatementOf(sql: Sql, plan: SelectionPlan): Planned<Statement>
    requires plan.datasets != []
  {
    match JoinedSource(plan.datasets)
    case Refused(e) => Refused(e)
    case Accepted(joined) =>
      match OriginsOf(joined.available, plan.columns)
      case Refused(e) => Refused(e)
      case Accepted(columns) =>
        match TestsOf(sql, joined.available, plan.filters)
        case Refused(e) => Refused(e)
        case Accepted(tests) =>
          if PersonCount(columns) < 2 then Accepted(Statement(joined.source, columns, tests, None, plan.limit))
          else
            match Lookup(joined.available, CustomerId)
            case None => Refused(NoCustomerKey)
            case Some(key) =>
              Accepted(Statement(joined.source, columns, tests, Some(Guard(Dimensions(columns), key, sql.K())),
                plan.limit))
  }

  method BuildStatement(sql: Sql, plan: SelectionPlan) returns (r: Planned<Statement>)
    requires plan.datasets != []
    ensures r == StatementOf(sql, plan)
  {
    var joined := JoinedSource(plan.datasets);
    if joined.Refused? { return Refused(joined.error); }
    var available := joined.value.available;
    var columnMap := ColumnMap(available);
    var columns := FindColumns(available, columnMap, plan.columns);
    if columns.Refused? { return Refused(columns.error); }
    var tests := FindTests(sql, available, columnMap, plan.filters);
    if tests.Refused? { return Refused(tests.error); }
    if PersonCount(columns.value) < 2 {
      return Accepted(Statement(joined.value.source, columns.value, tests.value, None, plan.limit));
    }
    if CustomerId !in columnMap { return Refused(NoCustomerKey); }
    r := Accepted(Statement(joined.value.source, columns.value, tests.value,
                            Some(Guard(Dimensions(columns.value), columnMap[CustomerId], sql.K())), plan.limit));
  }

  method FindColumns(available: seq<Table>, columnMap: map<Column, Origin>, columns: seq<Column>)
    returns (r: Planned<seq<Origin>>)
    requires IsColumnMap(columnMap, available)
    ensures r == OriginsOf(available, columns)
  {
    var found := [];
    for i := 0 to |columns|
      invariant OriginsOf(available, columns[..i]) == Accepted(found)
    {
      assert columns[..i + 1][..i] == columns[..i];
      if columns[i] !in columnMap {
        RefusedOrigins(available, columns, i + 1);
        return Refused(ColumnUnavailable);
      }
      found := found + [columnMap[columns[i]]];
    }
    assert columns[..|columns|] == columns;
    r := Accepted(found);
  }

  lemma {:induction false} RefusedOrigins(available: seq<Table>, columns: seq<Column>, n: nat)
    requires n <= |columns| && OriginsOf(available, columns[..n]).Refused?
    ensures OriginsOf(available, columns) == OriginsOf(available, columns[..n])
  {
    if n == |columns| {
      assert columns[..n] == columns;
    } else {
      assert columns[..|columns| - 1][..n] == columns[..n];
      RefusedOrigins(available, columns[..|columns| - 1], n);
    }
  }

  method FindTests(sql: Sql, available: seq<Table>, columnMap: map<Column, Origin>, filters: seq<FilterCondition>)
    returns (r: Planned<seq<Test>>)
    requires IsColumnMap(columnMap, available)
    ensures r == TestsOf(sql, available, filters)
  {
    var tests := [];
    for i := 0 to |filters|
      invariant TestsOf(sql, available, filters[..i]) == Accepted(tests)
    {
      assert filters[..i + 1][..i] == filters[..i];
      var f := filters[i];
      if f.column !in columnMap {
        RefusedTests(sql, available, filters, i + 1);
        return Refused(ColumnUnavailable);
      }
      if !sql.coerces(f) {
        RefusedTests(sql, available, filters, i + 1);
        return Refused(BadFilterValue);
      }
      tests := tests + [Test(columnMap[f.column], f)];
    }
    assert filters[..|filters|] == filters;
    r := Accepted(tests);
  }

  lemma {:induction false} RefusedTests(sql: Sql, available: seq<Table>, filters: seq<FilterCondition>, n: nat)
    requires n <= |filters| && TestsOf(sql, available, filters[..n]).Refused?
    ensures TestsOf(sql, available, filters) == TestsOf(sql, available, filters[..n])
  {
    if n == |filters| {
      assert filters[..n] == filters;
    } else {
      assert filters[..|filters| - 1][..n] == filters[..n];
      RefusedTests(sql, available, filters[..|filters| - 1], n);
    }
  }

  // ----- what a statement returns -----

  type TableRow = map<Column, Cell>

  type Database = Table -> seq<TableRow>

  /** One row of the joined source; a table missing from it is null-extended. */
  type Joined = map<Table, TableRow>

  function CellAt(r: Joined, o: Origin): Cell {
    if o.table in r && o.column in r[o.table] then r[o.table][o.column] else NullCell
  }

  /** SQL equality. */
  function Equal(a: Cell, b: Cell): Truth {
    if a.NullCell? || b.NullCell? then Unknown else if a == b then Yes else No
  }

  function Matching(l: Joined, t: Table, rows: seq<TableRow>, on: Origin, key: Column): seq<Joined> {
    if rows == [] then []
    else
      var n := |rows| - 1;
      var r := l[t := rows[n]];
      if Equal(CellAt(l, on), CellAt(r, Origin(t, key))).Yes? then Matching(l, t, rows[..n], on, key) + [r]
      else Matching(l, t, rows[..n], on, key)
  }

  function JoinRows(ls: seq<Joined>, t: Table, rows: seq<TableRow>, on: Origin, key: Column, outer: bool): seq<Joined> {
    if ls == [] then []
    else
      var n := |ls| - 1;
      var matching := Matching(ls[n], t, rows, on, key);
      JoinRows(ls[..n], t, rows, on, key, outer) + if matching == [] && outer then [ls[n]] else matching
  }

  function SourceRows(db: Database, s: Source): seq<Joined> {
    match s
    case Base(t) => seq(|db(t)|, i requires 0 <= i < |db(t)| => map[t := db(t)[i]])
    case Join(left, t, on, key, outer) => JoinRows(SourceRows(db, left), t, db(t), on, key, outer)
  }

  predicate Passes(sql: Sql, tests: seq<Test>, r: Joined) {
    forall i | 0 <= i < |tests| :: sql.holds(tests[i].condition, CellAt(r, tests[i].origin)).Yes?
  }

  /** The rows of the filtered join, in order. */
  function Filtered(sql: Sql, tests: seq<Test>, rows: seq<Joined>): seq<Joined> {
    if rows == [] then []
    else
      var n := |rows| - 1;
      if Passes(sql, tests, rows[n]) then Filtered(sql, tests, rows[..n]) + [rows[n]]
      else Filtered(sql, tests, rows[..n])
  }

  function Combination(r: Joined, dimensions: seq<Origin>): seq<Cell> {
    seq(|dimensions|, i requires 0 <= i < |dimensions| => CellAt(r, dimensions[i]))
  }

  /** The distinct non-null keys of the rows of one group; grouping treats nulls as equal. */
  function GroupKeys(rows: seq<Joined>, dimensions: seq<Origin>, combination: seq<Cell>, key: Origin): set<Cell> {
    set i | 0 <= i < |rows| && Combination(rows[i], dimensions) == combination && CellAt(rows[i], key) != NullCell ::
      CellAt(rows[i], key)
  }

  function SafeCombinations(rows: seq<Joined>, g: Guard): set<seq<Cell>> {
    set i | 0 <= i < |rows| && |GroupKeys(rows, g.dimensions, Combination(rows[i], g.dimensions), g.key)| >= g.minimum
      :: Combination(rows[i], g.dimensions)
  }

  /** SQL row equality. */
  function TupleEqual(a: seq<Cell>, b: seq<Cell>): Truth
    requires |a| == |b|
  {
    if exists i :: 0 <= i < |a| && Equal(a[i], b[i]).No? then No
    else if forall i | 0 <= i < |a| :: Equal(a[i], b[i]).Yes? then Yes
    else Unknown
  }

  /** SQL `IN`. */
  function TupleIn(a: seq<Cell>, tuples: set<seq<Cell>>): Truth {
    if exists t :: t in tuples && |t| == |a| && TupleEqual(a, t).Yes? then Yes
    else if forall t | t in tuples :: |t| == |a| && TupleEqual(a, t).No? then No
    else Unknown
  }

  predicate Guarded(rows: seq<Joined>, guard: Option<Guard>, r: Joined) {
    guard.None? || TupleIn(Combination(r, guard.value.dimensions), SafeCombinations(rows, guard.value)).Yes?
  }

  function Kept(filtered: seq<Joined>, guard: Option<Guard>, rows: seq<Joined>): seq<Joined> {
    if rows == [] then []
    else
      var n := |rows| - 1;
      if Guarded(filtered, guard, rows[n]) then Kept(filtered, guard, rows[..n]) + [rows[n]]
      else Kept(filtered, guard, rows[..n])
  }

  function Matched(sql: Sql, st: Statement, db: Database): seq<Joined> {
    Filtered(sql, st.tests, SourceRows(db, st.source))
  }

  /** The joined rows the statement selects, before projection and limit. */
  function Returned(sql: Sql, st: Statement, db: Database): seq<Joined> {
    var filtered := Matched(sql, st, db);
    Kept(filtered, st.guard, filtered)
  }

  /** The statement's result. */
  function Evaluate(sql: Sql, st: Statement, db: Database): seq<seq<Cell>> {
    var rows := Returned(sql, st, db);
    var n := if |rows| < st.limit then |rows| else if st.limit < 0 then 0 else st.limit;
    seq(n, i requires 0 <= i < n => Combination(rows[i], st.columns))
  }
}
