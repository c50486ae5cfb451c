/**
 What the statement of an accepted plan returns, stated from the plan and the database alone: which
 combinations of table rows, how often, and which of their cells in which order.
 */
module StatementMeaning {
  import opened Values
  import opened QueryRegistry
  import opened SelectionQuery
  import opened QueryExecutor
  import opened KAnonymity
  import opened JoinMeaning

  // ----- where a column is read -----

  /** The first table that has the column, in the order transactions, merchants, codes, cards, customers. */
  function Home(tables: set<Table>, c: Column): Table {
    if TransactionTable in tables && c in TableColumns(TransactionTable) then TransactionTable
    else if MerchantTable in tables && c in TableColumns(MerchantTable) then MerchantTable
    else if MccTable in tables && c in TableColumns(MccTable) then MccTable
    else if CardTable in Wanted(tables) && c in TableColumns(CardTable) then CardTable
    else CustomerTable
  }

  lemma LookupWith(part: Part, t: Table, on: Origin, outer: bool, c: Column)
    ensures Lookup(part.With(t, on, outer).available, c)
         == if Lookup(part.available, c).Some? then Lookup(part.available, c)
           else if c in TableColumns(t) then Some(Origin(t, c)) else None
  {
    LookupAppend(part.available, t, c);
  }

  lemma LookupAlone(t: Table, c: Column)
    ensures Lookup([t], c) == if c in TableColumns(t) then Some(Origin(t, c)) else None
  {
    assert [t][1..] == [];
  }

  /** What looking a column up finds when a table is appended to those searched so far. */
  function Else(found: Option<Origin>, wanted: bool, t: Table, c: Column): Option<Origin> {
    if found.Some? then found else if wanted && c in TableColumns(t) then Some(Origin(t, c)) else None
  }

  lemma MerchantsHome(tables: set<Table>, c: Column)
    ensures Lookup(WithMerchants(tables).available, c)
         == Else(Else(None, true, TransactionTable, c), MerchantTable in tables, MerchantTable, c)
  {
    LookupAlone(TransactionTable, c);
    LookupWith(Part(Base(TransactionTable), [TransactionTable]), MerchantTable, MERCHANT_ID, true, c);
  }

  lemma MccHome(tables: set<Table>, c: Column)
    ensures Lookup(WithMccCodes(tables).available, c)
         == Else(Lookup(WithMerchants(tables).available, c), MccTable in tables, MccTable, c)
  {
    LookupWith(WithMerchants(tables), MccTable, TRANSACTION_MCC, false, c);
  }

  lemma CustomersHome(tables: set<Table>, c: Column)
    ensures var found := Lookup(WithMccCodes(tables).available, c); var wanted := CustomerTable in tables;
      Lookup(TransactionSource(tables).available, c)
      == Else(Else(found, wanted, CardTable, c), wanted, CustomerTable, c)
  {
    if CustomerTable in tables {
      LookupWith(WithMccCodes(tables), CardTable, TRANSACTION_CARD, false, c);
      LookupWith(WithCards(tables), CustomerTable, CARD_CUSTOMER, false, c);
    }
  }

  lemma ElseHome(tables: set<Table>, c: Column)
    requires TransactionTable in tables && CardTable !in tables
    ensures var mcc := Else(Else(Else(None, true, TransactionTable, c), MerchantTable in tables, MerchantTable, c),
                            MccTable in tables, MccTable, c);
            var cards := Else(mcc, CustomerTable in tables, CardTable, c);
            var found := Else(cards, CustomerTable in tables, CustomerTable, c);
      found.Some? ==> found == Some(Origin(Home(tables, c), c))
  {
    assert CardTable in Wanted(tables) <==> CustomerTable in tables;
  }

  lemma TransactionHome(tables: set<Table>, c: Column)
    requires TransactionTable in tables && CardTable !in tables && Lookup(TransactionSource(tables).available, c).Some?
    ensures Lookup(TransactionSource(tables).available, c) == Some(Origin(Home(tables, c), c))
  {
    MerchantsHome(tables, c);
    MccHome(tables, c);
    CustomersHome(tables, c);
    ElseHome(tables, c);
  }

  lemma MerchantCodesHome(c: Column)
    ensures var found := Lookup(Part(Base(MerchantTable), [MerchantTable])
                                  .With(MccTable, Origin(MerchantTable, MccCode), false).available, c);
      found.Some? ==> found == Some(Origin(Home({MerchantTable, MccTable}, c), c))
  {
    LookupAlone(MerchantTable, c);
    LookupWith(Part(Base(MerchantTable), [MerchantTable]), MccTable, Origin(MerchantTable, MccCode), false, c);
  }

  lemma AloneHome(t: Table, c: Column)
    requires t != CardTable
    ensures Lookup([t], c).Some? ==> Lookup([t], c) == Some(Origin(Home({t}, c), c))
  {
    LookupAlone(t, c);
    assert Wanted({t}) == {t};
  }

  /** A column that is found is read in its home table. */
  lemma LookupHome(datasets: seq<Dataset>, c: Column)
    requires datasets != [] && JoinedSource(datasets).Accepted?
    requires Lookup(JoinedSource(datasets).value.available, c).Some?
    ensures Lookup(JoinedSource(datasets).value.available, c) == Some(Origin(Home(Tables(datasets), c), c))
  {
    var tables := Tables(datasets);
    assert CardTable !in tables && TableOf(datasets[0]) in tables;
    if TransactionTable in tables {
      TransactionHome(tables, c);
    } else if MccTable in tables && MerchantTable in tables && CustomerTable !in tables {
      TablesSplit(tables);
      assert tables == {MerchantTable, MccTable};
      MerchantCodesHome(c);
    } else {
      OneTable(tables, TableOf(datasets[0]));
      AloneHome(TableOf(datasets[0]), c);
    }
  }

  /** The cell of a joined row under one of the plan's columns. */
  function ValueOf(plan: SelectionPlan, r: Joined, c: Column): Cell {
    CellAt(r, Origin(Home(Tables(plan.datasets), c), c))
  }

  // ----- filters -----

  /** Every filter surely holds of the row. */
  predicate Satisfies(sql: Sql, plan: SelectionPlan, r: Joined) {
    forall f | f in plan.filters :: sql.holds(f, ValueOf(plan, r, f.column)).Yes?
  }

  /** A test for each filter, on the column the filter names. */
  predicate TestsMatch(available: seq<Table>, filters: seq<FilterCondition>, tests: seq<Test>) {
    |tests| == |filters| && forall i | 0 <= i < |filters| ::
      tests[i].condition == filters[i] && Lookup(available, filters[i].column) == Some(tests[i].origin)
  }

  lemma MatchSnoc(
    available: seq<Table>, filters: seq<FilterCondition>, tests: seq<Test>, f: FilterCondition, test: Test)
    requires TestsMatch(available, filters, tests)
    requires test.condition == f && Lookup(available, f.column) == Some(test.origin)
    ensures TestsMatch(available, filters + [f], tests + [test])
  {}

  lemma {:induction false} TestsInOrder(sql: Sql, available: seq<Table>, filters: seq<FilterCondition>)
    requires TestsOf(sql, available, filters).Accepted?
    ensures TestsMatch(available, filters, TestsOf(sql, available, filters).value)
  {
    if filters != [] {
      var n := |filters| - 1;
      TestsInOrder(sql, available, filters[..n]);
      assert filters == filters[..n] + [filters[n]];
      var o := Lookup(available, filters[n].column).value;
      MatchSnoc(available, filters[..n], TestsOf(sql, available, filters[..n]).value, filters[n], Test(o, filters[n]));
    }
  }

  /** The parts a statement is made of. */
  lemma StatementParts(sql: Sql, plan: SelectionPlan)
    requires plan.datasets != [] && StatementOf(sql, plan).Accepted?
    ensures JoinedSource(plan.datasets).Accepted?
    ensures var st, joined := StatementOf(sql, plan).value, JoinedSource(plan.datasets).value;
      && st.source == joined.source && st.limit == plan.limit
      && TestsOf(sql, joined.available, plan.filters) == Accepted(st.tests)
  {}

  lemma TestsHold(sql: Sql, plan: SelectionPlan, available: seq<Table>, tests: seq<Test>, r: Joined)
    requires TestsMatch(available, plan.filters, tests)
    requires forall i | 0 <= i < |tests| :: CellAt(r, tests[i].origin) == ValueOf(plan, r, plan.filters[i].column)
    ensures Passes(sql, tests, r) <==> Satisfies(sql, plan, r)
  {
    if Passes(sql, tests, r) {
      forall f | f in plan.filters ensures sql.holds(f, ValueOf(plan, r, f.column)).Yes? {
        var i :| 0 <= i < |plan.filters| && plan.filters[i] == f;
        assert tests[i].condition == f;
      }
    }
    if Satisfies(sql, plan, r) {
      forall i | 0 <= i < |tests| ensures sql.holds(tests[i].condition, CellAt(r, tests[i].origin)).Yes? {
        assert plan.filters[i] in plan.filters;
      }
    }
  }

  lemma PassesIff(sql: Sql, plan: SelectionPlan, r: Joined)
    requires WellFormed(plan) && StatementOf(sql, plan).Accepted?
    ensures Passes(sql, StatementOf(sql, plan).value.tests, r) <==> Satisfies(sql, plan, r)
  {
    var tests, available := StatementOf(sql, plan).value.tests, JoinedSource(plan.datasets).value.available;
    StatementParts(sql, plan);
    TestsInOrder(sql, available, plan.filters);
    forall i | 0 <= i < |tests| ensures CellAt(r, tests[i].origin) == ValueOf(plan, r, plan.filters[i].column) {
      LookupHome(plan.datasets, plan.filters[i].column);
    }
    TestsHold(sql, plan, available, tests, r);
  }

  lemma {:induction false} FilteredCounts(sql: Sql, tests: seq<Test>, rows: seq<Joined>, r: Joined)
    ensures multiset(Filtered(sql, tests, rows))[r] == if Passes(sql, tests, r) then multiset(rows)[r] else 0
  {
    if rows != [] {
      var n := |rows| - 1;
      assert rows == rows[..n] + [rows[n]];
      FilteredCounts(sql, tests, rows[..n], r);
    }
  }

  /**
   The filtered join of an accepted plan: the rows that belong together and satisfy every filter,
   as often as they occur in their tables.
   */
  lemma MatchedMeans(sql: Sql, plan: SelectionPlan, db: Database, r: Joined)
    requires WellFormed(plan) && StatementOf(sql, plan).Accepted?
    ensures multiset(Matched(sql, StatementOf(sql, plan).value, db))[r]
         == if Assembled(db, Tables(plan.datasets), r) && Satisfies(sql, plan, r) then AllCopies(db, r) else 0
  {
    var tests := StatementOf(sql, plan).value.tests;
    StatementParts(sql, plan);
    FilteredCounts(sql, tests, SourceRows(db, JoinedSource(plan.datasets).value.source), r);
    PassesIff(sql, plan, r);
    SourceMeans(db, plan.datasets, r);
  }

  // ----- the minimum group -----

  predicate Dimension(plan: SelectionPlan, c: Column) { c in plan.columns && c in QUASI_IDENTIFIERS }

  /** Two rows that show the same in every dimension of the plan. */
  predicate Alike(plan: SelectionPlan, a: Joined, b: Joined) {
    forall c | c in plan.columns && c in QUASI_IDENTIFIERS :: ValueOf(plan, a, c) == ValueOf(plan, b, c)
  }

  /** The customers among the rows that satisfy the filters and look like this one. */
  function Sharers(sql: Sql, plan: SelectionPlan, rows: seq<Joined>, r: Joined): set<Cell> {
    set i | 0 <= i < |rows| && Satisfies(sql, plan, rows[i]) && Alike(plan, rows[i], r)
            && CellAt(rows[i], CUSTOMER) != NullCell :: CellAt(rows[i], CUSTOMER)
  }

  /** No dimension is null, and enough customers look like this row. */
  predicate Safe(sql: Sql, plan: SelectionPlan, rows: seq<Joined>, r: Joined) {
    && (forall c | c in plan.columns && c in QUASI_IDENTIFIERS :: ValueOf(plan, r, c) != NullCell)
    && |Sharers(sql, plan, rows, r)| >= sql.K()
  }

  /** The columns of the statement are those of the plan, read where they live. */
  lemma StatementColumns(sql: Sql, plan: SelectionPlan)
    requires WellFormed(plan) && StatementOf(sql, plan).Accepted?
    ensures var columns := StatementOf(sql, plan).value.columns;
      |columns| == |plan.columns| && forall i | 0 <= i < |columns| ::
        columns[i] == Origin(Home(Tables(plan.datasets), plan.columns[i]), plan.columns[i])
  {
    StatementRefusedIff(sql, plan);
    JoinedTables(plan.datasets);
    var available := JoinedSource(plan.datasets).value.available;
    forall c | c in plan.columns ensures Lookup(available, c).Some? { AllowedFound(plan, available, c); }
    OriginsFound(available, plan.columns);
    forall i | 0 <= i < |plan.columns|
      ensures Lookup(available, plan.columns[i])
           == Some(Origin(Home(Tables(plan.datasets), plan.columns[i]), plan.columns[i]))
    {
      LookupHome(plan.datasets, plan.columns[i]);
    }
  }

  lemma {:induction false} DimensionMember(columns: seq<Origin>, o: Origin)
    ensures o in Dimensions(columns) <==> o in columns && o.column in QUASI_IDENTIFIERS
  {
    if columns != [] {
      var n := |columns| - 1;
      assert columns == columns[..n] + [columns[n]];
      DimensionMember(columns[..n], o);
    }
  }

  /** The guard's dimensions are the plan's. */
  lemma DimensionOrigins(sql: Sql, plan: SelectionPlan, o: Origin)
    requires WellFormed(plan) && StatementOf(sql, plan).Accepted?
    ensures o in Dimensions(StatementOf(sql, plan).value.columns)
       <==> Dimension(plan, o.column) && o == Origin(Home(Tables(plan.datasets), o.column), o.column)
  {
    StatementColumns(sql, plan);
    DimensionMember(StatementOf(sql, plan).value.columns, o);
  }

  lemma AlikeIff(sql: Sql, plan: SelectionPlan, a: Joined, b: Joined)
    requires WellFormed(plan) && StatementOf(sql, plan).Accepted?
    ensures var dimensions := Dimensions(StatementOf(sql, plan).value.columns);
      Combination(a, dimensions) == Combination(b, dimensions) <==> Alike(plan, a, b)
  {
    var dimensions := Dimensions(StatementOf(sql, plan).value.columns);
    if Combination(a, dimensions) == Combination(b, dimensions) {
      forall c | Dimension(plan, c) ensures ValueOf(plan, a, c) == ValueOf(plan, b, c) {
        var o := Origin(Home(Tables(plan.datasets), c), c);
        DimensionOrigins(sql, plan, o);
        var i :| 0 <= i < |dimensions| && dimensions[i] == o;
        assert Combination(a, dimensions)[i] == Combination(b, dimensions)[i];
      }
    }
    if Alike(plan, a, b) {
      forall i | 0 <= i < |dimensions| ensures CellAt(a, dimensions[i]) == CellAt(b, dimensions[i]) {
        DimensionOrigins(sql, plan, dimensions[i]);
        assert ValueOf(plan, a, dimensions[i].column) == ValueOf(plan, b, dimensions[i].column);
      }
    }
  }

  lemma DefiniteIff(sql: Sql, plan: SelectionPlan, r: Joined)
    requires WellFormed(plan) && StatementOf(sql, plan).Accepted?
    ensures Definite(Combination(r, Dimensions(StatementOf(sql, plan).value.columns)))
       <==> forall c | c in plan.columns && c in QUASI_IDENTIFIERS :: ValueOf(plan, r, c) != NullCell
  {
    var dimensions := Dimensions(StatementOf(sql, plan).value.columns);
    if Definite(Combination(r, dimensions)) {
      forall c | Dimension(plan, c) ensures ValueOf(plan, r, c) != NullCell {
        var o := Origin(Home(Tables(plan.datasets), c), c);
        DimensionOrigins(sql, plan, o);
        var i :| 0 <= i < |dimensions| && dimensions[i] == o;
        assert Combination(r, dimensions)[i] != NullCell;
      }
    } else {
      var i :| 0 <= i < |dimensions| && CellAt(r, dimensions[i]) == NullCell;
      DimensionOrigins(sql, plan, dimensions[i]);
    }
  }

  /** Being matched and in the group, or satisfying the filters and looking alike, is the same. */
  lemma MatchedAlike(sql: Sql, plan: SelectionPlan, db: Database, r: Joined, q: Joined)
    requires WellFormed(plan) && StatementOf(sql, plan).Accepted?
    ensures var st := StatementOf(sql, plan).value; var dimensions := Dimensions(st.columns);
      q in Matched(sql, st, db) && Combination(q, dimensions) == Combination(r, dimensions)
      <==> q in SourceRows(db, st.source) && Satisfies(sql, plan, q) && Alike(plan, q, r)
  {
    var st := StatementOf(sql, plan).value;
    FilteredSubset(sql, st.tests, SourceRows(db, st.source), q);
    PassesIff(sql, plan, q);
    AlikeIff(sql, plan, q, r);
  }

  lemma SharersAreKeys(sql: Sql, plan: SelectionPlan, db: Database, r: Joined)
    requires WellFormed(plan) && StatementOf(sql, plan).Accepted?
    ensures var st := StatementOf(sql, plan).value; var dimensions := Dimensions(st.columns);
      GroupKeys(Matched(sql, st, db), dimensions, Combination(r, dimensions), CUSTOMER)
      == Sharers(sql, plan, SourceRows(db, st.source), r)
  {
    var st := StatementOf(sql, plan).value;
    var dimensions := Dimensions(st.columns);
    forall q
      ensures (q in Matched(sql, st, db) && Combination(q, dimensions) == Combination(r, dimensions))
         <==> (q in SourceRows(db, st.source) && Satisfies(sql, plan, q) && Alike(plan, q, r))
    {
      MatchedAlike(sql, plan, db, r, q);
    }
    SameKeys(sql, plan, Matched(sql, st, db), SourceRows(db, st.source), dimensions, r);
  }

  lemma SameKeys(
    sql: Sql, plan: SelectionPlan, matched: seq<Joined>, rows: seq<Joined>, dimensions: seq<Origin>, r: Joined)
    requires forall q ::
      (q in matched && Combination(q, dimensions) == Combination(r, dimensions))
      <==> (q in rows && Satisfies(sql, plan, q) && Alike(plan, q, r))
    ensures GroupKeys(matched, dimensions, Combination(r, dimensions), CUSTOMER) == Sharers(sql, plan, rows, r)
  {
    var keys, sharers :=
      GroupKeys(matched, dimensions, Combination(r, dimensions), CUSTOMER), Sharers(sql, plan, rows, r);
    forall x | x in keys ensures x in sharers {
      var i :| 0 <= i < |matched| && Combination(matched[i], dimensions) == Combination(r, dimensions)
               && CellAt(matched[i], CUSTOMER) != NullCell && CellAt(matched[i], CUSTOMER) == x;
      var j :| 0 <= j < |rows| && rows[j] == matched[i];
    }
    forall x | x in sharers ensures x in keys {
      var j :| 0 <= j < |rows| && Satisfies(sql, plan, rows[j]) && Alike(plan, rows[j], r)
               && CellAt(rows[j], CUSTOMER) != NullCell && CellAt(rows[j], CUSTOMER) == x;
      assert rows[j] in rows;
      var i :| 0 <= i < |matched| && matched[i] == rows[j];
    }
  }

  /**
   A statement returns the rows that belong together and satisfy every filter, as often as they
   occur; with two or more person attributes, only those whose dimensions are non-null and shared by
   at least k customers among the rows that satisfy the filters.
   */
  lemma ReturnedMeans(sql: Sql, plan: SelectionPlan, db: Database, r: Joined)
    requires WellFormed(plan) && StatementOf(sql, plan).Accepted?
    ensures var st := StatementOf(sql, plan).value;
      multiset(Returned(sql, st, db))[r] ==
        if Assembled(db, Tables(plan.datasets), r) && Satisfies(sql, plan, r)
           && (|Members(plan.columns, PERSON_ATTRIBUTES)| >= 2 ==> Safe(sql, plan, SourceRows(db, st.source), r))
        then AllCopies(db, r) else 0
  {
    var st := StatementOf(sql, plan).value;
    MatchedMeans(sql, plan, db, r);
    if |Members(plan.columns, PERSON_ATTRIBUTES)| >= 2 {
      ReturnedIff(sql, plan, db, r);
      DefiniteIff(sql, plan, r);
      SharersAreKeys(sql, plan, db, r);
    } else {
      StatementRefusedIff(sql, plan);
      KeptCounts(Matched(sql, st, db), st.guard, Matched(sql, st, db), r);
    }
  }

  /** The result has a row for each returned one, up to the limit, with the plan's columns in their order. */
  lemma ResultMeans(sql: Sql, plan: SelectionPlan, db: Database)
    requires WellFormed(plan) && StatementOf(sql, plan).Accepted?
    ensures var st := StatementOf(sql, plan).value;
            var result, returned := QueryExecutor.Evaluate(sql, st, db), Returned(sql, st, db);
      && |result| == (if |returned| <= plan.limit then |returned| else plan.limit)
      && forall i | 0 <= i < |result| ::
           |result[i]| == |plan.columns|
           && forall j | 0 <= j < |plan.columns| :: result[i][j] == ValueOf(plan, returned[i], plan.columns[j])
  {
    StatementColumns(sql, plan);
    var st := StatementOf(sql, plan).value;
    assert st.limit == plan.limit;
  }
}
