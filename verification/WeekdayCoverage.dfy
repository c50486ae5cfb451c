/**
 Which returned rows the k-customer guard covers.  A row's combination over all its selected columns
 that are no measure is shared by at least k customers on every database, unless the weekday, which
 is no grouping dimension, is selected; then k customers who differ in nothing but their weekday are
 returned although one of them is alone on that day.
 */
module WeekdayCoverage {
  import opened Values
  import opened QueryRegistry
  import opened SelectionQuery
  import opened QueryExecutor
  import opened KAnonymity
  import opened JoinMeaning
  import StatementMeaning

  /** The selected columns that are no measure. */
  function Unmeasured(columns: seq<Origin>): (r: seq<Origin>)
    ensures forall o :: o in r <==> o in columns && o.column !in MEASURE_COLUMNS
  {
    if columns == [] then []
    else
      var n := |columns| - 1;
      assert columns == columns[..n] + [columns[n]];
      if columns[n].column !in MEASURE_COLUMNS then Unmeasured(columns[..n]) + [columns[n]]
      else Unmeasured(columns[..n])
  }

  /** Every returned row agrees on everything but measures with returned rows of at least k customers. */
  ghost predicate Covered(sql: Sql, st: Statement, db: Database) {
    var returned, shown := Returned(sql, st, db), Unmeasured(st.columns);
    forall r | r in returned :: |GroupKeys(returned, shown, Combination(r, shown), CUSTOMER)| >= sql.K()
  }

  ghost predicate AlwaysCovered(sql: Sql, st: Statement) { forall db: Database :: Covered(sql, st, db) }

  predicate Guardable(plan: SelectionPlan) {
    WellFormed(plan) && |Members(plan.columns, PERSON_ATTRIBUTES)| >= 2
  }

  // ----- without the weekday -----

  lemma ColumnsFound(sql: Sql, plan: SelectionPlan)
    requires Guardable(plan) && StatementOf(sql, plan).Accepted?
    ensures JoinedSource(plan.datasets).Accepted?
    ensures var st, available := StatementOf(sql, plan).value, JoinedSource(plan.datasets).value.available;
      && st.source == JoinedSource(plan.datasets).value.source && |st.columns| == |plan.columns|
      && forall i | 0 <= i < |plan.columns| :: Lookup(available, plan.columns[i]) == Some(st.columns[i])
  {
    StatementRefusedIff(sql, plan);
    JoinedTables(plan.datasets);
    var available := JoinedSource(plan.datasets).value.available;
    forall c | c in Allowed(plan.datasets) ensures Lookup(available, c).Some? { AllowedFound(plan, available, c); }
    OriginsFound(available, plan.columns);
  }

  lemma CoveredWithoutWeekday(sql: Sql, plan: SelectionPlan, db: Database)
    requires Guardable(plan) && StatementOf(sql, plan).Accepted? && TransactionWeekday !in plan.columns
    ensures Covered(sql, StatementOf(sql, plan).value, db)
  {
    var st := StatementOf(sql, plan).value;
    var shown := Unmeasured(st.columns);
    ShownAreDimensions(sql, plan);
    forall r | r in Returned(sql, st, db)
      ensures |GroupKeys(Returned(sql, st, db), shown, Combination(r, shown), CUSTOMER)| >= sql.K()
    {
      CoarserCombinationsCovered(sql, plan, db, r, shown);
    }
  }

  lemma ShownAreDimensions(sql: Sql, plan: SelectionPlan)
    requires Guardable(plan) && StatementOf(sql, plan).Accepted? && TransactionWeekday !in plan.columns
    ensures var columns := StatementOf(sql, plan).value.columns;
      forall o | o in Unmeasured(columns) :: o in Dimensions(columns)
  {
    ColumnsFound(sql, plan);
    DimensionsCoverIff(plan);
    OnlyDimensions(StatementOf(sql, plan).value.columns, plan.columns);
  }

  lemma OnlyDimensions(columns: seq<Origin>, names: seq<Column>)
    requires |columns| == |names| && forall i | 0 <= i < |columns| :: columns[i].column == names[i]
    requires forall c | c in names :: c in QUASI_IDENTIFIERS || c in MEASURE_COLUMNS
    ensures forall o | o in Unmeasured(columns) :: o in Dimensions(columns)
  {
    forall o | o in Unmeasured(columns) ensures o in Dimensions(columns) {
      var i :| 0 <= i < |columns| && columns[i] == o;
      assert names[i] in names;
      StatementMeaning.DimensionMember(columns, o);
    }
  }

  // ----- with the weekday: a population that is told apart by it -----

  /** The value of a column for the `i`th person. */
  type Population = (Column, nat) -> Value

  /** Columns in which the persons of the population may differ; no dimension is among them. */
  predicate Personal(c: Column) {
    || c.CustomerId? || c.CardNumberMasked? || c.TransactionWeekday? || c.TransactionId? || c.TransactionDatetime?
    || c.TransactionAmount? || c.KrwConvertedAmount? || c.AppliedExchangeRate? || c.IpAddress? || c.CardIssueMonth?
  }

  lemma DimensionsNotPersonal(c: Column)
    requires c in QUASI_IDENTIFIERS
    ensures !Personal(c)
  {}

  lemma MerchantsNotPersonal(c: Column)
    requires c in TableColumns(MerchantTable) || c in TableColumns(MccTable)
    ensures !Personal(c)
  {}

  /** `k` customers with a card each, alike in all dimensions, the first on a weekday of its own. */
  ghost predicate Exposing(p: Population, k: nat) {
    && (forall i, j | 0 <= i < j < k :: p(CustomerId, i) != p(CustomerId, j))
    && (forall i, j | 0 <= i < j < k :: p(CardNumberMasked, i) != p(CardNumberMasked, j))
    && (forall i | 0 < i < k :: p(TransactionWeekday, i) != p(TransactionWeekday, 0))
    && Alike(p, k)
  }

  ghost predicate Alike(p: Population, k: nat) {
    forall c, i | !Personal(c) && 0 <= i < k :: p(c, i) == p(c, 0)
  }

  /** Every person passes every filter. */
  ghost predicate Admits(sql: Sql, filters: seq<FilterCondition>, p: Population, k: nat) {
    forall f, i | f in filters && 0 <= i < k :: sql.holds(f, Data(p(f.column, i))).Yes?
  }

  function RowOf(p: Population, t: Table, i: nat): TableRow { map c | c in TableColumns(t) :: Data(p(c, i)) }

  /** One row per person in every table. */
  function DatabaseOf(p: Population, k: nat): Database {
    (t: Table) => seq(k, i requires 0 <= i < k => RowOf(p, t, i))
  }

  function Person(p: Population, tables: set<Table>, i: nat): Joined { map t | t in tables :: RowOf(p, t, i) }

  /** The rows are the persons, each at least once. */
  ghost predicate Persons(rows: seq<Joined>, p: Population, tables: set<Table>, k: nat) {
    && (forall r | r in rows :: exists i: nat :: i < k && r == Person(p, tables, i))
    && (forall i | 0 <= i < k :: Person(p, tables, i) in rows)
  }

  lemma PersonCell(p: Population, tables: set<Table>, i: nat, o: Origin)
    requires o.table in tables && o.column in TableColumns(o.table)
    ensures CellAt(Person(p, tables, i), o) == Data(p(o.column, i))
  {}

  // ----- joining the persons' rows -----

  lemma {:induction false} MatchingIff(l: Joined, t: Table, rows: seq<TableRow>, on: Origin, key: Column, r: Joined)
    ensures r in Matching(l, t, rows, on, key) <==>
      exists j ::
        0 <= j < |rows| && r == l[t := rows[j]] && Equal(CellAt(l, on), CellAt(l[t := rows[j]], Origin(t, key))).Yes?
  {
    if rows != [] {
      var n := |rows| - 1;
      MatchingIff(l, t, rows[..n], on, key, r);
      assert forall j | 0 <= j < n :: rows[..n][j] == rows[j];
    }
  }

  lemma {:induction false} JoinRowsIff(
    ls: seq<Joined>, t: Table, rows: seq<TableRow>, on: Origin, key: Column, outer: bool, r: Joined)
    ensures r in JoinRows(ls, t, rows, on, key, outer) <==>
      exists l :: l in ls && r in JoinOne(l, t, rows, on, key, outer)
  {
    if ls != [] {
      var n := |ls| - 1;
      JoinRowsIff(ls[..n], t, rows, on, key, outer, r);
      assert forall l :: l in ls <==> l in ls[..n] || l == ls[n];
      assert JoinRows(ls, t, rows, on, key, outer)
          == JoinRows(ls[..n], t, rows, on, key, outer) + JoinOne(ls[n], t, rows, on, key, outer);
    }
  }

  /** A key tells apart at least the rows of its table that differ. */
  ghost predicate KeyedBy(p: Population, t: Table, key: Column, k: nat) {
    forall i, j | 0 <= i < k && 0 <= j < k && p(key, i) == p(key, j) :: RowOf(p, t, i) == RowOf(p, t, j)
  }

  ghost predicate Keyed(p: Population, k: nat) {
    && KeyedBy(p, MerchantTable, MerchantId, k) && KeyedBy(p, MccTable, MccCode, k)
    && KeyedBy(p, CardTable, CardNumberMasked, k) && KeyedBy(p, CustomerTable, CustomerId, k)
  }

  lemma ExposingKeys(p: Population, k: nat)
    requires Exposing(p, k)
    ensures Keyed(p, k)
  {
    forall i | 0 <= i < k
      ensures RowOf(p, MerchantTable, i) == RowOf(p, MerchantTable, 0) && RowOf(p, MccTable, i) == RowOf(p, MccTable, 0)
    {
      forall c | c in TableColumns(MerchantTable) || c in TableColumns(MccTable) ensures p(c, i) == p(c, 0) {
        MerchantsNotPersonal(c);
      }
    }
  }

  lemma Extended(p: Population, tables: set<Table>, t: Table, i: nat)
    requires t !in tables
    ensures Person(p, tables, i)[t := RowOf(p, t, i)] == Person(p, tables + {t}, i)
  {}

  /** The rows that join with the `i`th person are that person's own. */
  lemma MatchingPerson(p: Population, tables: set<Table>, t: Table, key: Column, on: Origin, k: nat, i: nat, r: Joined)
    requires i < k && t !in tables && on.table in tables && on.column == key
    requires key in TableColumns(on.table) && key in TableColumns(t) && KeyedBy(p, t, key, k)
    ensures r in Matching(Person(p, tables, i), t, DatabaseOf(p, k)(t), on, key) <==> r == Person(p, tables + {t}, i)
  {
    var l, rows := Person(p, tables, i), DatabaseOf(p, k)(t);
    MatchingIff(l, t, rows, on, key, r);
    Extended(p, tables, t, i);
    forall j | 0 <= j < k ensures rows[j] == RowOf(p, t, j) { }
    forall j | 0 <= j < k
      ensures Equal(CellAt(l, on), CellAt(l[t := rows[j]], Origin(t, key))).Yes? <==> p(key, i) == p(key, j)
    {
      PairMatches(p, tables, t, key, on, i, j);
    }
  }

  lemma PairMatches(p: Population, tables: set<Table>, t: Table, key: Column, on: Origin, i: nat, j: nat)
    requires t !in tables && on.table in tables && on.column == key
    requires key in TableColumns(on.table) && key in TableColumns(t)
    ensures var l := Person(p, tables, i);
      Equal(CellAt(l, on), CellAt(l[t := RowOf(p, t, j)], Origin(t, key))).Yes? <==> p(key, i) == p(key, j)
  {
    PersonCell(p, tables, i, on);
  }

  lemma JoinPersons(ls: seq<Joined>, p: Population, tables: set<Table>, t: Table, on: Origin, outer: bool, k: nat)
    requires Persons(ls, p, tables, k) && t !in tables && on.table in tables
    requires on.column in TableColumns(on.table) && on.column in TableColumns(t) && KeyedBy(p, t, on.column, k)
    ensures Persons(JoinRows(ls, t, DatabaseOf(p, k)(t), on, on.column, outer), p, tables + {t}, k)
  {
    var rows, key := DatabaseOf(p, k)(t), on.column;
    var out := JoinRows(ls, t, rows, on, key, outer);
    forall r | r in out ensures exists i: nat :: i < k && r == Person(p, tables + {t}, i) {
      JoinRowsIff(ls, t, rows, on, key, outer, r);
      var l :| l in ls && r in JoinOne(l, t, rows, on, key, outer);
      var i: nat :| i < k && l == Person(p, tables, i);
      MatchingPerson(p, tables, t, key, on, k, i, Person(p, tables + {t}, i));
      MatchingPerson(p, tables, t, key, on, k, i, r);
    }
    forall i | 0 <= i < k ensures Person(p, tables + {t}, i) in out {
      MatchingPerson(p, tables, t, key, on, k, i, Person(p, tables + {t}, i));
      JoinRowsIff(ls, t, rows, on, key, outer, Person(p, tables + {t}, i));
    }
  }

  function TableSet(available: seq<Table>): set<Table> { set t | t in available }

  /** The part yields the persons over its tables. */
  ghost predicate Yields(part: Part, p: Population, k: nat) {
    Persons(SourceRows(DatabaseOf(p, k), part.source), p, TableSet(part.available), k)
  }

  /** The column is in both tables. */
  predicate Joinable(t: Table, on: Origin) { on.column in TableColumns(on.table) && on.column in TableColumns(t) }

  lemma JoinKeys()
    ensures Joinable(MerchantTable, MERCHANT_ID) && Joinable(MccTable, TRANSACTION_MCC)
    ensures Joinable(CardTable, TRANSACTION_CARD) && Joinable(CustomerTable, CARD_CUSTOMER)
  {}

  lemma YieldsMore(part: Part, p: Population, k: nat, t: Table, on: Origin, outer: bool)
    requires Yields(part, p, k) && t !in part.available && on.table in part.available
    requires Joinable(t, on) && KeyedBy(p, t, on.column, k)
    ensures Yields(part.With(t, on, outer), p, k)
  {
    JoinPersons(SourceRows(DatabaseOf(p, k), part.source), p, TableSet(part.available), t, on, outer, k);
    assert TableSet(part.available + [t]) == TableSet(part.available) + {t};
  }

  lemma BaseYields(p: Population, k: nat)
    ensures Yields(Part(Base(TransactionTable), [TransactionTable]), p, k)
  {
    var rows := SourceRows(DatabaseOf(p, k), Base(TransactionTable));
    assert TableSet([TransactionTable]) == {TransactionTable};
    forall i | 0 <= i < k ensures rows[i] == Person(p, {TransactionTable}, i) {}
  }

  lemma MccCodesYield(p: Population, k: nat, tables: set<Table>)
    requires Keyed(p, k)
    ensures Yields(WithMccCodes(tables), p, k)
  {
    MerchantsYield(p, k, tables);
    JoinKeys();
    if MccTable in tables { YieldsMore(WithMerchants(tables), p, k, MccTable, TRANSACTION_MCC, false); }
  }

  lemma MerchantsYield(p: Population, k: nat, tables: set<Table>)
    requires Keyed(p, k)
    ensures Yields(WithMerchants(tables), p, k)
  {
    BaseYields(p, k);
    JoinKeys();
    if MerchantTable in tables {
      YieldsMore(Part(Base(TransactionTable), [TransactionTable]), p, k, MerchantTable, MERCHANT_ID, true);
    }
  }

  lemma CardsYield(p: Population, k: nat, tables: set<Table>)
    requires Keyed(p, k)
    ensures Yields(WithCards(tables), p, k)
  {
    MccCodesYield(p, k, tables);
    JoinKeys();
    YieldsMore(WithMccCodes(tables), p, k, CardTable, TRANSACTION_CARD, false);
  }

  /** The source of a plan with transactions and customers yields exactly the persons. */
  lemma SourceYields(p: Population, k: nat, tables: set<Table>)
    requires Keyed(p, k) && CustomerTable in tables
    ensures Yields(TransactionSource(tables), p, k)
  {
    CardsYield(p, k, tables);
    JoinKeys();
    YieldsMore(WithCards(tables), p, k, CustomerTable, CARD_CUSTOMER, false);
  }

  // ----- the first person is returned and is alone -----

  lemma WeekdayNeedsTransactions(plan: SelectionPlan)
    requires Guardable(plan) && !Separate(plan.datasets) && TransactionWeekday in plan.columns
    ensures JoinedSource(plan.datasets) == Accepted(TransactionSource(Tables(plan.datasets)))
    ensures CustomerTable in Tables(plan.datasets)
  {
    PersonsAreCustomers(plan);
    assert TableOf(Customers) in Tables(plan.datasets);
    var d :| d in plan.datasets && TransactionWeekday in AllowedColumns(d);
    assert d == Transactions && TableOf(d) in Tables(plan.datasets);
  }

  lemma {:induction false} TestsAreFilters(sql: Sql, available: seq<Table>, filters: seq<FilterCondition>)
    requires TestsOf(sql, available, filters).Accepted?
    ensures forall t | t in TestsOf(sql, available, filters).value ::
      t.condition in filters && Lookup(available, t.condition.column) == Some(t.origin)
  {
    if filters != [] {
      var n := |filters| - 1;
      assert filters == filters[..n] + [filters[n]];
      TestsAreFilters(sql, available, filters[..n]);
    }
  }

  lemma PersonPasses(sql: Sql, available: seq<Table>, filters: seq<FilterCondition>, p: Population, k: nat, i: nat)
    requires TestsOf(sql, available, filters).Accepted? && Admits(sql, filters, p, k) && i < k
    ensures Passes(sql, TestsOf(sql, available, filters).value, Person(p, TableSet(available), i))
  {
    TestsAreFilters(sql, available, filters);
    var tests := TestsOf(sql, available, filters).value;
    forall j | 0 <= j < |tests|
      ensures sql.holds(tests[j].condition, CellAt(Person(p, TableSet(available), i), tests[j].origin)).Yes?
    {
      assert tests[j] in tests;
      PersonCell(p, TableSet(available), i, tests[j].origin);
    }
  }

  predicate OriginIn(o: Origin, tables: set<Table>) { o.table in tables && o.column in TableColumns(o.table) }

  /** The filtered rows are the persons, and every selected column is one of theirs. */
  ghost predicate ReadsPersons(sql: Sql, st: Statement, tables: set<Table>, p: Population) {
    && OriginIn(CUSTOMER, tables) && (forall o | o in st.columns :: OriginIn(o, tables))
    && Persons(Matched(sql, st, DatabaseOf(p, sql.K())), p, tables, sql.K())
  }

  lemma MatchedPersons(sql: Sql, plan: SelectionPlan, p: Population) returns (tables: set<Table>)
    requires Guardable(plan) && StatementOf(sql, plan).Accepted? && TransactionWeekday in plan.columns
    requires Keyed(p, sql.K()) && Admits(sql, plan.filters, p, sql.K())
    ensures ReadsPersons(sql, StatementOf(sql, plan).value, tables, p)
  {
    StatementRefusedIff(sql, plan);
    WeekdayNeedsTransactions(plan);
    var part := TransactionSource(Tables(plan.datasets));
    tables := TableSet(part.available);
    SourceYields(p, sql.K(), Tables(plan.datasets));
    CustomerIdTables(CustomerTable);
    ColumnsRead(sql, plan, part.available);
    TestsRead(sql, plan, part.available);
    forall i | 0 <= i < sql.K() ensures Passes(sql, StatementOf(sql, plan).value.tests, Person(p, tables, i)) {
      PersonPasses(sql, part.available, plan.filters, p, sql.K(), i);
    }
    var st := StatementOf(sql, plan).value;
    FilteredPersons(sql, st.tests, SourceRows(DatabaseOf(p, sql.K()), part.source), p, tables, sql.K());
  }

  lemma ColumnsRead(sql: Sql, plan: SelectionPlan, available: seq<Table>)
    requires Guardable(plan) && StatementOf(sql, plan).Accepted?
    requires JoinedSource(plan.datasets).Accepted? && JoinedSource(plan.datasets).value.available == available
    ensures forall o | o in StatementOf(sql, plan).value.columns :: OriginIn(o, TableSet(available))
  {
    ColumnsFound(sql, plan);
    var columns := StatementOf(sql, plan).value.columns;
    forall o | o in columns ensures OriginIn(o, TableSet(available)) {
      var i :| 0 <= i < |columns| && columns[i] == o;
      assert Lookup(available, plan.columns[i]) == Some(o);
    }
  }

  lemma TestsRead(sql: Sql, plan: SelectionPlan, available: seq<Table>)
    requires plan.datasets != [] && StatementOf(sql, plan).Accepted?
    requires JoinedSource(plan.datasets).Accepted? && JoinedSource(plan.datasets).value.available == available
    ensures TestsOf(sql, available, plan.filters) == Accepted(StatementOf(sql, plan).value.tests)
    ensures StatementOf(sql, plan).value.source == JoinedSource(plan.datasets).value.source
  {}

  lemma FilteredPersons(sql: Sql, tests: seq<Test>, rows: seq<Joined>, p: Population, tables: set<Table>, k: nat)
    requires Persons(rows, p, tables, k) && forall i | 0 <= i < k :: Passes(sql, tests, Person(p, tables, i))
    ensures Persons(Filtered(sql, tests, rows), p, tables, k)
  {
    forall r ensures r in Filtered(sql, tests, rows) <==> r in rows && Passes(sql, tests, r) {
      FilteredSubset(sql, tests, rows, r);
    }
  }

  lemma SameDimensions(p: Population, k: nat, tables: set<Table>, dimensions: seq<Origin>, i: nat)
    requires Exposing(p, k) && i < k
    requires forall o | o in dimensions :: OriginIn(o, tables) && o.column in QUASI_IDENTIFIERS
    ensures Combination(Person(p, tables, i), dimensions) == Combination(Person(p, tables, 0), dimensions)
    ensures Definite(Combination(Person(p, tables, i), dimensions))
  {
    forall j | 0 <= j < |dimensions|
      ensures CellAt(Person(p, tables, i), dimensions[j]) == CellAt(Person(p, tables, 0), dimensions[j]) != NullCell
    {
      assert dimensions[j] in dimensions;
      DimensionsNotPersonal(dimensions[j].column);
      PersonCell(p, tables, i, dimensions[j]);
      PersonCell(p, tables, 0, dimensions[j]);
    }
  }

  lemma {:induction false} DistinctCount(f: nat -> Cell, n: nat)
    requires forall i, j | 0 <= i < j < n :: f(i) != f(j)
    ensures |set i: nat | i < n :: f(i)| == n
  {
    if n > 0 {
      DistinctCount(f, n - 1);
      var before := set i: nat | i < n - 1 :: f(i);
      assert f(n - 1) !in before;
      assert (set i: nat | i < n :: f(i)) == before + {f(n - 1)};
    }
  }

  lemma EveryoneShares(rows: seq<Joined>, p: Population, k: nat, tables: set<Table>, dimensions: seq<Origin>)
    requires Exposing(p, k) && Persons(rows, p, tables, k) && OriginIn(CUSTOMER, tables) && k > 0
    requires forall o | o in dimensions :: OriginIn(o, tables) && o.column in QUASI_IDENTIFIERS
    ensures |GroupKeys(rows, dimensions, Combination(Person(p, tables, 0), dimensions), CUSTOMER)| >= k
  {
    forall i | 0 <= i < k
      ensures Combination(Person(p, tables, i), dimensions) == Combination(Person(p, tables, 0), dimensions)
    {
      SameDimensions(p, k, tables, dimensions, i);
    }
    var customer := (i: nat) => Data(p(CustomerId, i));
    DistinctCount(customer, k);
    OneGroup(rows, p, k, tables, dimensions, customer);
    SubsetSize(set i: nat | i < k :: customer(i),
               GroupKeys(rows, dimensions, Combination(Person(p, tables, 0), dimensions), CUSTOMER));
  }

  lemma OneGroup(
    rows: seq<Joined>, p: Population, k: nat, tables: set<Table>, dimensions: seq<Origin>, customer: nat -> Cell)
    requires Persons(rows, p, tables, k) && OriginIn(CUSTOMER, tables)
    requires forall i: nat | i < k :: customer(i) == Data(p(CustomerId, i))
    requires forall i | 0 <= i < k ::
      Combination(Person(p, tables, i), dimensions) == Combination(Person(p, tables, 0), dimensions)
    ensures (set i: nat | i < k :: customer(i))
         <= GroupKeys(rows, dimensions, Combination(Person(p, tables, 0), dimensions), CUSTOMER)
  {
    var group := GroupKeys(rows, dimensions, Combination(Person(p, tables, 0), dimensions), CUSTOMER);
    forall i: nat | i < k ensures customer(i) in group {
      PersonCell(p, tables, i, CUSTOMER);
      var j :| 0 <= j < |rows| && rows[j] == Person(p, tables, i);
      assert CellAt(rows[j], CUSTOMER) in group;
    }
  }

  /** Every person is returned, and nobody else. */
  lemma PersonsReturned(sql: Sql, plan: SelectionPlan, p: Population, tables: set<Table>)
    requires Guardable(plan) && StatementOf(sql, plan).Accepted? && Exposing(p, sql.K())
    requires ReadsPersons(sql, StatementOf(sql, plan).value, tables, p)
    ensures Persons(Returned(sql, StatementOf(sql, plan).value, DatabaseOf(p, sql.K())), p, tables, sql.K())
  {
    var st, db, k := StatementOf(sql, plan).value, DatabaseOf(p, sql.K()), sql.K();
    var matched, dimensions := Matched(sql, st, db), Dimensions(st.columns);
    forall o | o in dimensions ensures OriginIn(o, tables) && o.column in QUASI_IDENTIFIERS {
      StatementMeaning.DimensionMember(st.columns, o);
    }
    EveryoneShares(matched, p, k, tables, dimensions);
    forall i | 0 <= i < k ensures Person(p, tables, i) in Returned(sql, st, db) {
      SameDimensions(p, k, tables, dimensions, i);
      ReturnedIff(sql, plan, db, Person(p, tables, i));
      assert Person(p, tables, i) in multiset(matched);
      assert Person(p, tables, i) in multiset(Returned(sql, st, db));
    }
    forall r | r in Returned(sql, st, db) ensures r in matched {
      ReturnedIff(sql, plan, db, r);
      assert r in multiset(Returned(sql, st, db));
    }
  }

  /** Seen with the weekday, the first person's group is that person alone. */
  lemma FirstIsAlone(rows: seq<Joined>, p: Population, k: nat, tables: set<Table>, shown: seq<Origin>, weekday: Origin)
    requires Persons(rows, p, tables, k) && OriginIn(CUSTOMER, tables)
    requires forall i | 0 < i < k :: p(TransactionWeekday, i) != p(TransactionWeekday, 0)
    requires weekday in shown && weekday.column == TransactionWeekday && OriginIn(weekday, tables)
    ensures |GroupKeys(rows, shown, Combination(Person(p, tables, 0), shown), CUSTOMER)| <= 1
  {
    var first := Combination(Person(p, tables, 0), shown);
    var group := GroupKeys(rows, shown, first, CUSTOMER);
    forall j | 0 <= j < |rows| && Combination(rows[j], shown) == first
      ensures CellAt(rows[j], CUSTOMER) == Data(p(CustomerId, 0))
    {
      assert rows[j] in rows;
      var i: nat :| i < k && rows[j] == Person(p, tables, i);
      SameWeekday(p, tables, shown, weekday, i);
      PersonCell(p, tables, 0, CUSTOMER);
    }
    assert group <= {Data(p(CustomerId, 0))};
    SubsetSize(group, {Data(p(CustomerId, 0))});
  }

  lemma SameWeekday(p: Population, tables: set<Table>, shown: seq<Origin>, weekday: Origin, i: nat)
    requires weekday in shown && weekday.column == TransactionWeekday && OriginIn(weekday, tables)
    requires Combination(Person(p, tables, i), shown) == Combination(Person(p, tables, 0), shown)
    ensures p(TransactionWeekday, i) == p(TransactionWeekday, 0)
  {
    var w :| 0 <= w < |shown| && shown[w] == weekday;
    PersonCell(p, tables, 0, weekday);
    PersonCell(p, tables, i, weekday);
    assert Combination(Person(p, tables, i), shown)[w] == Combination(Person(p, tables, 0), shown)[w];
  }

  /**
   When the weekday is selected, any k persons who pass the filters, agree in every dimension and of
   whom the first has a weekday of its own are all returned, and that first row covers one customer.
   */
  lemma WeekdayUncovered(sql: Sql, plan: SelectionPlan, p: Population)
    requires Guardable(plan) && StatementOf(sql, plan).Accepted? && TransactionWeekday in plan.columns
    requires Exposing(p, sql.K()) && Admits(sql, plan.filters, p, sql.K())
    ensures !Covered(sql, StatementOf(sql, plan).value, DatabaseOf(p, sql.K()))
  {
    var st, db, k := StatementOf(sql, plan).value, DatabaseOf(p, sql.K()), sql.K();
    ExposingKeys(p, k);
    var tables := MatchedPersons(sql, plan, p);
    PersonsReturned(sql, plan, p, tables);
    var weekday := WeekdayShown(sql, plan);
    FirstIsAlone(Returned(sql, st, db), p, k, tables, Unmeasured(st.columns), weekday);
    assert Person(p, tables, 0) in Returned(sql, st, db);
  }

  lemma WeekdayShown(sql: Sql, plan: SelectionPlan) returns (weekday: Origin)
    requires Guardable(plan) && StatementOf(sql, plan).Accepted? && TransactionWeekday in plan.columns
    ensures var columns := StatementOf(sql, plan).value.columns;
      weekday in columns && weekday in Unmeasured(columns) && weekday.column == TransactionWeekday
  {
    ColumnsFound(sql, plan);
    weekday := ShownAs(StatementOf(sql, plan).value.columns, plan.columns, TransactionWeekday);
  }

  lemma ShownAs(columns: seq<Origin>, names: seq<Column>, c: Column) returns (o: Origin)
    requires |columns| == |names| && forall i | 0 <= i < |columns| :: columns[i].column == names[i]
    requires c in names && c !in MEASURE_COLUMNS
    ensures o in columns && o in Unmeasured(columns) && o.column == c
  {
    var i :| 0 <= i < |names| && names[i] == c;
    o := columns[i];
  }

  // ----- the exact condition -----

  /** Customers 0, 1, 2, ..., the first on day 0 and all others on day 1. */
  function Neighbour(c: Column, i: nat): (v: Value)
    ensures c == CustomerId || c == CardNumberMasked ==> v == Int(i)
    ensures c == TransactionWeekday ==> v == Int(if i == 0 then 0 else 1)
    ensures !Personal(c) ==> v == Int(0)
  {
    match c
    case CustomerId => Int(i)
    case CardNumberMasked => Int(i)
    case TransactionWeekday => Int(if i == 0 then 0 else 1)
    case _ => Int(0)
  }

  lemma NeighboursExpose(p: Population, k: nat)
    requires forall c, i: nat :: p(c, i) == Neighbour(c, i)
    ensures Exposing(p, k)
  {
    assert Alike(p, k);
  }

  /** Every filtered statement with these columns covers its rows. */
  ghost predicate SelectionCovered(sql: Sql, plan: SelectionPlan) {
    forall filters | Guardable(plan.(filters := filters)) && StatementOf(sql, plan.(filters := filters)).Accepted? ::
      AlwaysCovered(sql, StatementOf(sql, plan.(filters := filters)).value)
  }

  /**
   Without filters, every returned row of every database shares its combination over all selected
   columns that are no measure with k customers if and only if the weekday is not selected.
   */
  lemma WeekdayCoverIff(sql: Sql, plan: SelectionPlan)
    requires Guardable(plan) && !Separate(plan.datasets) && plan.filters == []
    ensures StatementOf(sql, plan).Accepted?
    ensures AlwaysCovered(sql, StatementOf(sql, plan).value) <==> TransactionWeekday !in plan.columns
  {
    StatementRefusedIff(sql, plan);
    if TransactionWeekday in plan.columns {
      NeighboursExpose(Neighbour, sql.K());
      WeekdayUncovered(sql, plan, Neighbour);
    } else {
      forall db: Database ensures Covered(sql, StatementOf(sql, plan).value, db) {
        CoveredWithoutWeekday(sql, plan, db);
      }
    }
  }

  /** The same for a choice of columns, whatever the filters: they are covered iff the weekday is not chosen. */
  lemma SelectionCoverIff(sql: Sql, plan: SelectionPlan)
    requires Guardable(plan) && !Separate(plan.datasets)
    ensures SelectionCovered(sql, plan) <==> TransactionWeekday !in plan.columns
  {
    var bare := plan.(filters := []);
    WeekdayCoverIff(sql, bare);
    if TransactionWeekday !in plan.columns {
      forall filters, db: Database | Guardable(plan.(filters := filters))
        && StatementOf(sql, plan.(filters := filters)).Accepted?
        ensures Covered(sql, StatementOf(sql, plan.(filters := filters)).value, db)
      {
        CoveredWithoutWeekday(sql, plan.(filters := filters), db);
      }
    } else {
      assert !AlwaysCovered(sql, StatementOf(sql, plan.(filters := [])).value);
    }
  }
}
