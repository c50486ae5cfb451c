/**
 What an accepted plan returns: every column and filter is found, and with two or more person
 attributes a matching row is returned exactly when its dimensions are non-null and shared by at
 least k distinct customers of the filtered join.
 */
module KAnonymity {
  import opened Values
  import opened QueryRegistry
  import opened SelectionQuery
  import opened QueryExecutor

  // ----- every plan finds its columns -----

  /** Customers can only be combined with merchants or business codes through transactions. */
  predicate Separate(datasets: seq<Dataset>) {
    Customers in datasets && (Merchants in datasets || MccCodes in datasets) && Transactions !in datasets
  }

  lemma JoinedTables(datasets: seq<Dataset>)
    requires datasets != []
    ensures JoinedSource(datasets).Refused? <==> Separate(datasets)
    ensures JoinedSource(datasets).Refused? ==> JoinedSource(datasets).error == Unjoinable
    ensures JoinedSource(datasets).Accepted? ==>
      forall d | d in datasets :: TableOf(d) in JoinedSource(datasets).value.available
  {
    var tables := Tables(datasets);
    assert forall d | d in datasets :: TableOf(d) in tables;
    assert datasets[0] in datasets;
    assert TransactionTable in tables <==> Transactions in datasets;
    assert CustomerTable in tables <==> Customers in datasets;
    assert MerchantTable in tables <==> Merchants in datasets;
    assert MccTable in tables <==> MccCodes in datasets;
  }

  lemma {:induction false} OriginsFound(available: seq<Table>, columns: seq<Column>)
    requires forall c | c in columns :: Lookup(available, c).Some?
    ensures OriginsOf(available, columns).Accepted?
    ensures var origins := OriginsOf(available, columns).value;
      |origins| == |columns| && forall i | 0 <= i < |columns| :: Lookup(available, columns[i]) == Some(origins[i])
  {
    if columns != [] {
      var n := |columns| - 1;
      assert columns == columns[..n] + [columns[n]];
      OriginsFound(available, columns[..n]);
    }
  }

  lemma {:induction false} TestsFound(sql: Sql, available: seq<Table>, filters: seq<FilterCondition>)
    requires forall f | f in filters :: Lookup(available, f.column).Some?
    ensures TestsOf(sql, available, filters).Accepted? <==> forall f | f in filters :: sql.coerces(f)
    ensures TestsOf(sql, available, filters).Refused? ==> TestsOf(sql, available, filters).error == BadFilterValue
  {
    if filters != [] {
      var n := |filters| - 1;
      assert filters == filters[..n] + [filters[n]];
      TestsFound(sql, available, filters[..n]);
    }
  }

  lemma {:induction false} PersonCounts(columns: seq<Column>, origins: seq<Origin>)
    requires |origins| == |columns| && forall i | 0 <= i < |columns| :: origins[i].column == columns[i]
    requires forall i, j | 0 <= i < j < |columns| :: columns[i] != columns[j]
    ensures PersonCount(origins) == |Members(columns, PERSON_ATTRIBUTES)|
  {
    if columns == [] {
      assert Members(columns, PERSON_ATTRIBUTES) == {};
    } else {
      var n := |columns| - 1;
      assert columns == columns[..n] + [columns[n]];
      PersonCounts(columns[..n], origins[..n]);
      var before := Members(columns[..n], PERSON_ATTRIBUTES);
      assert Members(columns, PERSON_ATTRIBUTES)
           == if columns[n] in PERSON_ATTRIBUTES then before + {columns[n]} else before;
      assert columns[n] !in columns[..n];
    }
  }

  lemma AllowedFound(plan: SelectionPlan, available: seq<Table>, c: Column)
    requires forall d | d in plan.datasets :: TableOf(d) in available
    requires c in Allowed(plan.datasets)
    ensures Lookup(available, c).Some?
  {
    var d :| d in plan.datasets && c in AllowedColumns(d);
  }

  /** Only customers expose person attributes. */
  lemma PersonColumns(d: Dataset, c: Column)
    requires c in PERSON_ATTRIBUTES && d != Customers
    ensures c !in TableColumns(TableOf(d))
  {
    match d {
      case MccCodes =>
      case Merchants => if c in TableColumns(MerchantTable) { PersonNotMerchant(c); }
      case Transactions => if c in TableColumns(TransactionTable) { PersonNotTransaction(c); }
    }
  }

  lemma PersonNotMerchant(c: Column)
    requires c in TableColumns(MerchantTable)
    ensures c !in PERSON_ATTRIBUTES
  {}

  lemma PersonNotTransaction(c: Column)
    requires c in TableColumns(TransactionTable)
    ensures c !in PERSON_ATTRIBUTES
  {}

  lemma PersonsAreCustomers(plan: SelectionPlan)
    requires WellFormed(plan) && |Members(plan.columns, PERSON_ATTRIBUTES)| >= 2
    ensures Customers in plan.datasets
  {
    var c :| c in Members(plan.columns, PERSON_ATTRIBUTES);
    assert c in plan.columns && c in Allowed(plan.datasets);
    var d :| d in plan.datasets && c in AllowedColumns(d);
    if d != Customers { PersonColumns(d, c); }
  }

  lemma CustomerIdTables(t: Table)
    ensures CustomerId in TableColumns(t) <==> t == CustomerTable || t == CardTable
  {}

  /** In a joinable plan every column is found, the filters fail only on values, and persons come with customers. */
  lemma EverythingFound(sql: Sql, plan: SelectionPlan)
    requires WellFormed(plan) && !Separate(plan.datasets)
    ensures JoinedSource(plan.datasets).Accepted?
    ensures var available := JoinedSource(plan.datasets).value.available;
      var tests := TestsOf(sql, available, plan.filters);
      && OriginsOf(available, plan.columns).Accepted?
      && (tests.Accepted? <==> forall f | f in plan.filters :: sql.coerces(f))
      && (tests.Refused? ==> tests.error == BadFilterValue)
      && PersonCount(OriginsOf(available, plan.columns).value) == |Members(plan.columns, PERSON_ATTRIBUTES)|
      && (|Members(plan.columns, PERSON_ATTRIBUTES)| >= 2 ==> Lookup(available, CustomerId).Some?)
  {
    JoinedTables(plan.datasets);
    var available := JoinedSource(plan.datasets).value.available;
    AllFound(sql, plan, available);
    if |Members(plan.columns, PERSON_ATTRIBUTES)| >= 2 { CustomerKeyFound(plan, available); }
  }

  lemma CustomerKeyFound(plan: SelectionPlan, available: seq<Table>)
    requires WellFormed(plan) && |Members(plan.columns, PERSON_ATTRIBUTES)| >= 2
    requires forall d | d in plan.datasets :: TableOf(d) in available
    ensures Lookup(available, CustomerId).Some?
  {
    PersonsAreCustomers(plan);
    CustomerIdTables(CustomerTable);
    assert TableOf(Customers) in available;
  }

  lemma AllFound(sql: Sql, plan: SelectionPlan, available: seq<Table>)
    requires WellFormed(plan) && forall d | d in plan.datasets :: TableOf(d) in available
    ensures var tests := TestsOf(sql, available, plan.filters);
      && OriginsOf(available, plan.columns).Accepted?
      && (tests.Accepted? <==> forall f | f in plan.filters :: sql.coerces(f))
      && (tests.Refused? ==> tests.error == BadFilterValue)
      && PersonCount(OriginsOf(available, plan.columns).value) == |Members(plan.columns, PERSON_ATTRIBUTES)|
  {
    forall c | c in Allowed(plan.datasets) ensures Lookup(available, c).Some? { AllowedFound(plan, available, c); }
    OriginsFound(available, plan.columns);
    TestsFound(sql, available, plan.filters);
    PersonCounts(plan.columns, OriginsOf(available, plan.columns).value);
  }

  /**
   A plan is refused exactly when it combines customers with merchants or business codes without
   transactions, or a filter value does not fit its column; no column is ever missing.
   */
  lemma StatementRefusedIff(sql: Sql, plan: SelectionPlan)
    requires WellFormed(plan)
    ensures StatementOf(sql, plan).Refused? <==>
      Separate(plan.datasets) || exists f :: f in plan.filters && !sql.coerces(f)
    ensures StatementOf(sql, plan).Refused? ==> StatementOf(sql, plan).error in {Unjoinable, BadFilterValue}
    ensures StatementOf(sql, plan).Accepted? ==>
      (StatementOf(sql, plan).value.guard.Some? <==> |Members(plan.columns, PERSON_ATTRIBUTES)| >= 2)
  {
    JoinedTables(plan.datasets);
    if !Separate(plan.datasets) { EverythingFound(sql, plan); }
  }

  // ----- the counted key is the customer -----

  lemma {:induction false} MatchingEqual(l: Joined, t: Table, rows: seq<TableRow>, on: Origin, key: Column, r: Joined)
    requires on.table != t && r in Matching(l, t, rows, on, key)
    ensures CellAt(r, on) == CellAt(r, Origin(t, key))
  {
    var n := |rows| - 1;
    if r in Matching(l, t, rows[..n], on, key) {
      MatchingEqual(l, t, rows[..n], on, key, r);
    }
  }

  lemma {:induction false} InnerJoinEqual(
    ls: seq<Joined>, t: Table, rows: seq<TableRow>, on: Origin, key: Column, r: Joined)
    requires on.table != t && r in JoinRows(ls, t, rows, on, key, false)
    ensures CellAt(r, on) == CellAt(r, Origin(t, key))
  {
    var n := |ls| - 1;
    if r in JoinRows(ls[..n], t, rows, on, key, false) {
      InnerJoinEqual(ls[..n], t, rows, on, key, r);
    } else {
      MatchingEqual(ls[n], t, rows, on, key, r);
    }
  }

  lemma NoCustomerBefore(tables: set<Table>)
    ensures Lookup(WithMccCodes(tables).available, CustomerId).None?
  {
    forall t | t in WithMccCodes(tables).available ensures CustomerId !in TableColumns(t) { CustomerIdTables(t); }
  }

  lemma TransactionKey(tables: set<Table>)
    requires CustomerTable in tables
    ensures var part := TransactionSource(tables);
      && Lookup(part.available, CustomerId) == Some(CARD_CUSTOMER)
      && part.source == Join(WithCards(tables).source, CustomerTable, CARD_CUSTOMER, CustomerId, false)
  {
    NoCustomerBefore(tables);
    CustomerIdTables(CardTable);
    LookupAppend(WithMccCodes(tables).available, CardTable, CustomerId);
    LookupAppend(WithCards(tables).available, CustomerTable, CustomerId);
  }

  /** Without transactions only the customers themselves are read. */
  lemma CustomersAlone(datasets: seq<Dataset>)
    requires datasets != [] && Customers in datasets && !Separate(datasets) && Transactions !in datasets
    ensures JoinedSource(datasets) == Accepted(Part(Base(CustomerTable), [CustomerTable]))
  {
    var tables := Tables(datasets);
    assert TableOf(Customers) in tables;
    assert datasets[0] in datasets && datasets[0] == Customers;
    assert TransactionTable !in tables && MerchantTable !in tables && MccTable !in tables;
  }

  lemma JoinedKey(db: Database, tables: set<Table>, r: Joined)
    requires CustomerTable in tables && r in SourceRows(db, TransactionSource(tables).source)
    ensures Lookup(TransactionSource(tables).available, CustomerId) == Some(CARD_CUSTOMER)
    ensures CellAt(r, CARD_CUSTOMER) == CellAt(r, CUSTOMER)
  {
    TransactionKey(tables);
    InnerJoinEqual(SourceRows(db, WithCards(tables).source), CustomerTable, db(CustomerTable), CARD_CUSTOMER,
      CustomerId, r);
  }

  /** In every joined row the counted key is the customer's own id. */
  lemma KeyIsCustomer(db: Database, datasets: seq<Dataset>, r: Joined)
    requires datasets != [] && Customers in datasets && !Separate(datasets)
    requires JoinedSource(datasets).Accepted? && r in SourceRows(db, JoinedSource(datasets).value.source)
    requires Lookup(JoinedSource(datasets).value.available, CustomerId).Some?
    ensures CellAt(r, Lookup(JoinedSource(datasets).value.available, CustomerId).value) == CellAt(r, CUSTOMER)
  {
    if Transactions in datasets {
      assert TableOf(Transactions) in Tables(datasets) && TableOf(Customers) in Tables(datasets);
      JoinedKey(db, Tables(datasets), r);
    } else {
      CustomersAlone(datasets);
    }
  }

  lemma {:induction false} FilteredSubset(sql: Sql, tests: seq<Test>, rows: seq<Joined>, r: Joined)
    ensures r in Filtered(sql, tests, rows) <==> r in rows && Passes(sql, tests, r)
  {
    if rows != [] {
      var n := |rows| - 1;
      assert rows == rows[..n] + [rows[n]];
      FilteredSubset(sql, tests, rows[..n], r);
    }
  }

  /** Every matching row's key is its customer, so groups count customers. */
  lemma GroupsCountCustomers(sql: Sql, plan: SelectionPlan, db: Database, combination: seq<Cell>)
    requires WellFormed(plan) && |Members(plan.columns, PERSON_ATTRIBUTES)| >= 2 && StatementOf(sql, plan).Accepted?
    ensures var st := StatementOf(sql, plan).value; var rows := Matched(sql, st, db);
      && st.guard.Some? && st.guard.value.dimensions == Dimensions(st.columns) && st.guard.value.minimum == sql.K()
      && GroupKeys(rows, st.guard.value.dimensions, combination, st.guard.value.key)
         == GroupKeys(rows, st.guard.value.dimensions, combination, CUSTOMER)
  {
    StatementRefusedIff(sql, plan);
    KeysAreCustomers(sql, plan, db);
    var st := StatementOf(sql, plan).value;
    SameGroupKeys(Matched(sql, st, db), st.guard.value.dimensions, combination, st.guard.value.key, CUSTOMER);
  }

  lemma KeysAreCustomers(sql: Sql, plan: SelectionPlan, db: Database)
    requires WellFormed(plan) && |Members(plan.columns, PERSON_ATTRIBUTES)| >= 2 && StatementOf(sql, plan).Accepted?
    requires StatementOf(sql, plan).value.guard.Some?
    ensures var st := StatementOf(sql, plan).value; var rows := Matched(sql, st, db);
      forall i | 0 <= i < |rows| :: CellAt(rows[i], st.guard.value.key) == CellAt(rows[i], CUSTOMER)
  {
    PersonsAreCustomers(plan);
    JoinedTables(plan.datasets);
    GuardKey(sql, plan);
    var st := StatementOf(sql, plan).value;
    var rows := Matched(sql, st, db);
    forall i | 0 <= i < |rows| ensures CellAt(rows[i], st.guard.value.key) == CellAt(rows[i], CUSTOMER) {
      FilteredKey(sql, db, plan.datasets, st.tests, rows[i]);
    }
  }

  lemma GuardKey(sql: Sql, plan: SelectionPlan)
    requires plan.datasets != [] && StatementOf(sql, plan).Accepted? && StatementOf(sql, plan).value.guard.Some?
    ensures var st, joined := StatementOf(sql, plan).value, JoinedSource(plan.datasets);
      joined.Accepted? && st.source == joined.value.source
      && Lookup(joined.value.available, CustomerId) == Some(st.guard.value.key)
  {}

  lemma FilteredKey(sql: Sql, db: Database, datasets: seq<Dataset>, tests: seq<Test>, r: Joined)
    requires datasets != [] && Customers in datasets && !Separate(datasets) && JoinedSource(datasets).Accepted?
    requires Lookup(JoinedSource(datasets).value.available, CustomerId).Some?
    requires r in Filtered(sql, tests, SourceRows(db, JoinedSource(datasets).value.source))
    ensures CellAt(r, Lookup(JoinedSource(datasets).value.available, CustomerId).value) == CellAt(r, CUSTOMER)
  {
    FilteredSubset(sql, tests, SourceRows(db, JoinedSource(datasets).value.source), r);
    KeyIsCustomer(db, datasets, r);
  }

  lemma SameGroupKeys(rows: seq<Joined>, dimensions: seq<Origin>, combination: seq<Cell>, a: Origin, b: Origin)
    requires forall i | 0 <= i < |rows| :: CellAt(rows[i], a) == CellAt(rows[i], b)
    ensures GroupKeys(rows, dimensions, combination, a) == GroupKeys(rows, dimensions, combination, b)
  {}

  // ----- who is returned -----

  predicate Definite(combination: seq<Cell>) { forall i | 0 <= i < |combination| :: combination[i] != NullCell }

  /** SQL row equality is sure exactly for equal tuples without nulls. */
  lemma TupleEqualIff(a: seq<Cell>, b: seq<Cell>)
    requires |a| == |b|
    ensures TupleEqual(a, b).Yes? <==> a == b && Definite(a)
  {
    if TupleEqual(a, b).Yes? {
      assert forall i | 0 <= i < |a| :: Equal(a[i], b[i]).Yes?;
    } else if a == b && Definite(a) {
      assert forall i | 0 <= i < |a| :: Equal(a[i], b[i]).Yes?;
    }
  }

  lemma TupleInIff(a: seq<Cell>, tuples: set<seq<Cell>>)
    ensures TupleIn(a, tuples).Yes? <==> a in tuples && Definite(a)
  {
    forall t | t in tuples && |t| == |a|
      ensures TupleEqual(a, t).Yes? <==> a == t && Definite(a)
    {
      TupleEqualIff(a, t);
    }
  }

  predicate Shared(rows: seq<Joined>, dimensions: seq<Origin>, key: Origin, minimum: nat, r: Joined) {
    Definite(Combination(r, dimensions)) && |GroupKeys(rows, dimensions, Combination(r, dimensions), key)| >= minimum
  }

  lemma GuardedIff(rows: seq<Joined>, g: Guard, r: Joined)
    requires r in rows
    ensures Guarded(rows, Some(g), r) <==> Shared(rows, g.dimensions, g.key, g.minimum, r)
  {
    TupleInIff(Combination(r, g.dimensions), SafeCombinations(rows, g));
  }

  lemma {:induction false} KeptCounts(filtered: seq<Joined>, guard: Option<Guard>, rows: seq<Joined>, r: Joined)
    ensures multiset(Kept(filtered, guard, rows))[r] == if Guarded(filtered, guard, r) then multiset(rows)[r] else 0
  {
    if rows != [] {
      var n := |rows| - 1;
      assert rows == rows[..n] + [rows[n]];
      KeptCounts(filtered, guard, rows[..n], r);
    }
  }

  /**
   With two or more person attributes, a row matching the filters is returned, as often as it
   matches, exactly when its dimension values are non-null and shared by at least k distinct
   customers of the filtered join; any other row is not returned at all.
   */
  lemma ReturnedIff(sql: Sql, plan: SelectionPlan, db: Database, r: Joined)
    requires WellFormed(plan) && |Members(plan.columns, PERSON_ATTRIBUTES)| >= 2 && StatementOf(sql, plan).Accepted?
    ensures var st := StatementOf(sql, plan).value; var matched := Matched(sql, st, db);
      multiset(Returned(sql, st, db))[r]
      == if Shared(matched, Dimensions(st.columns), CUSTOMER, sql.K(), r) then multiset(matched)[r] else 0
  {
    var st := StatementOf(sql, plan).value;
    var matched := Matched(sql, st, db);
    GroupsCountCustomers(sql, plan, db, Combination(r, Dimensions(st.columns)));
    KeptCounts(matched, st.guard, matched, r);
    if r in matched {
      GuardedIff(matched, st.guard.value, r);
    }
  }

  lemma SubsetSize<T>(a: set<T>, b: set<T>)
    requires a <= b
    ensures |a| <= |b|
  {
    if a != {} {
      var x :| x in a;
      SubsetSize(a - {x}, b - {x});
    }
  }

  /**
   Every combination of dimension values that is returned, and every coarser projection of it,
   covers at least k distinct customers among the returned rows themselves.
   */
  lemma CoarserCombinationsCovered(sql: Sql, plan: SelectionPlan, db: Database, r: Joined, coarse: seq<Origin>)
    requires WellFormed(plan) && |Members(plan.columns, PERSON_ATTRIBUTES)| >= 2 && StatementOf(sql, plan).Accepted?
    requires r in Returned(sql, StatementOf(sql, plan).value, db)
    requires forall o | o in coarse :: o in Dimensions(StatementOf(sql, plan).value.columns)
    ensures var returned := Returned(sql, StatementOf(sql, plan).value, db);
      |GroupKeys(returned, coarse, Combination(r, coarse), CUSTOMER)| >= sql.K()
  {
    var st := StatementOf(sql, plan).value;
    var matched, returned, dimensions := Matched(sql, st, db), Returned(sql, st, db), Dimensions(st.columns);
    ReturnedIff(sql, plan, db, r);
    assert multiset(returned)[r] > 0;
    var group := GroupKeys(matched, dimensions, Combination(r, dimensions), CUSTOMER);
    forall x | x in group ensures x in GroupKeys(returned, coarse, Combination(r, coarse), CUSTOMER) {
      var i :| 0 <= i < |matched| && Combination(matched[i], dimensions) == Combination(r, dimensions)
               && CellAt(matched[i], CUSTOMER) != NullCell && CellAt(matched[i], CUSTOMER) == x;
      ReturnedIff(sql, plan, db, matched[i]);
      assert matched[i] in multiset(matched) && matched[i] in multiset(returned);
      CoarserEqual(matched[i], r, dimensions, coarse);
      var j :| 0 <= j < |returned| && returned[j] == matched[i];
    }
    SubsetSize(group, GroupKeys(returned, coarse, Combination(r, coarse), CUSTOMER));
  }

  lemma CoarserEqual(a: Joined, b: Joined, dimensions: seq<Origin>, coarse: seq<Origin>)
    requires Combination(a, dimensions) == Combination(b, dimensions) && forall o | o in coarse :: o in dimensions
    ensures Combination(a, coarse) == Combination(b, coarse)
  {
    forall i | 0 <= i < |coarse| ensures CellAt(a, coarse[i]) == CellAt(b, coarse[i]) {
      assert coarse[i] in dimensions;
      var j :| 0 <= j < |dimensions| && dimensions[j] == coarse[i];
      assert Combination(a, dimensions)[j] == Combination(b, dimensions)[j];
    }
  }
}
