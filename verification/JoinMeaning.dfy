/**
 What the joined source of a query holds, stated without its construction: which combinations of
 table rows belong together, and how often each of them occurs.
 */
module JoinMeaning {
  import opened Values
  import opened QueryRegistry
  import opened SelectionQuery
  import opened QueryExecutor

  // ----- one join -----

  /** Both tables have the column, non-null and equal. */
  predicate Linked(r: Joined, a: Table, b: Table, c: Column) {
    CellAt(r, Origin(a, c)) == CellAt(r, Origin(b, c)) && CellAt(r, Origin(a, c)) != NullCell
  }

  predicate HasPartner(r: Joined, a: Table, b: Table, c: Column, rows: seq<TableRow>) {
    exists row :: row in rows && Linked(r[b := row], a, b, c)
  }

  /** How often a join has the row: as often as both its halves are there, or once unmatched. */
  function JoinCount(
    ls: multiset<Joined>, a: Table, b: Table, c: Column, rows: seq<TableRow>, outer: bool, r: Joined): nat
  {
    if b in r then if Linked(r, a, b, c) then ls[r - {b}] * multiset(rows)[r[b]] else 0
    else if outer && !HasPartner(r, a, b, c, rows) then ls[r] else 0
  }

  lemma PutBack(l: Joined, t: Table, row: TableRow, r: Joined)
    requires t !in l
    ensures l[t := row] == r <==> t in r && r - {t} == l && r[t] == row
  {
    if t in r && r - {t} == l && r[t] == row {
      assert l[t := row].Keys == r.Keys;
      assert forall k | k in r :: l[t := row][k] == r[k];
    }
    if l[t := row] == r { assert r - {t} == l; }
  }

  lemma LinkedByPut(l: Joined, a: Table, b: Table, c: Column, row: TableRow)
    requires a != b
    ensures Linked(l[b := row], a, b, c)
       <==> Equal(CellAt(l, Origin(a, c)), CellAt(l[b := row], Origin(b, c))).Yes?
  {}

  lemma PartnerSnoc(l: Joined, a: Table, b: Table, c: Column, rows: seq<TableRow>, row: TableRow)
    ensures HasPartner(l, a, b, c, rows + [row]) <==> HasPartner(l, a, b, c, rows) || Linked(l[b := row], a, b, c)
  {
    if HasPartner(l, a, b, c, rows) {
      var x :| x in rows && Linked(l[b := x], a, b, c);
      assert x in rows + [row];
    }
    if Linked(l[b := row], a, b, c) { assert row in rows + [row]; }
  }

  lemma {:induction false} MatchingCounts(l: Joined, a: Table, b: Table, c: Column, rows: seq<TableRow>, r: Joined)
    requires b !in l && a != b
    ensures multiset(Matching(l, b, rows, Origin(a, c), c))[r]
         == if b in r && r - {b} == l && Linked(r, a, b, c) then multiset(rows)[r[b]] else 0
  {
    if rows != [] {
      var n := |rows| - 1;
      assert rows == rows[..n] + [rows[n]];
      MatchingCounts(l, a, b, c, rows[..n], r);
      PutBack(l, b, rows[n], r);
      LinkedByPut(l, a, b, c, rows[n]);
    }
  }

  lemma {:induction false} MatchingNone(l: Joined, a: Table, b: Table, c: Column, rows: seq<TableRow>)
    requires b !in l && a != b
    ensures Matching(l, b, rows, Origin(a, c), c) == [] <==> !HasPartner(l, a, b, c, rows)
  {
    if rows != [] {
      var n := |rows| - 1;
      MatchingNone(l, a, b, c, rows[..n]);
      assert rows == rows[..n] + [rows[n]];
      PartnerSnoc(l, a, b, c, rows[..n], rows[n]);
      LinkedByPut(l, a, b, c, rows[n]);
    }
  }

  /** What one left row adds to a join. */
  function JoinOne(l: Joined, t: Table, rows: seq<TableRow>, on: Origin, key: Column, outer: bool): seq<Joined> {
    var matching := Matching(l, t, rows, on, key);
    if matching == [] && outer then [l] else matching
  }

  lemma OnlyHalf(l: Joined, b: Table, r: Joined)
    ensures multiset{l}[r - {b}] == if r - {b} == l then 1 else 0
  {}

  lemma NoPartnerCounts(l: Joined, a: Table, b: Table, c: Column, rows: seq<TableRow>, outer: bool, r: Joined)
    requires b !in l && a != b && !HasPartner(l, a, b, c, rows) && outer
    ensures JoinCount(multiset{l}, a, b, c, rows, outer, r) == multiset{l}[r]
  {
    if b in r {
      assert r != l;
      OnlyHalf(l, b, r);
      if r - {b} == l && Linked(r, a, b, c) {
        PutBack(l, b, r[b], r);
        assert r[b] !in rows;
      }
    }
  }

  lemma PartnerCounts(l: Joined, a: Table, b: Table, c: Column, rows: seq<TableRow>, outer: bool, r: Joined)
    requires b !in l && a != b && (HasPartner(l, a, b, c, rows) || !outer)
    ensures JoinCount(multiset{l}, a, b, c, rows, outer, r)
         == if b in r && r - {b} == l && Linked(r, a, b, c) then multiset(rows)[r[b]] else 0
  {
    OnlyHalf(l, b, r);
    assert multiset{l}[r] == if r == l then 1 else 0;
  }

  lemma JoinOneCounts(l: Joined, a: Table, b: Table, c: Column, rows: seq<TableRow>, outer: bool, r: Joined)
    requires b !in l && a != b
    ensures multiset(JoinOne(l, b, rows, Origin(a, c), c, outer))[r]
         == JoinCount(multiset{l}, a, b, c, rows, outer, r)
  {
    var matching := Matching(l, b, rows, Origin(a, c), c);
    MatchingCounts(l, a, b, c, rows, r);
    MatchingNone(l, a, b, c, rows);
    if matching == [] && outer {
      assert JoinOne(l, b, rows, Origin(a, c), c, outer) == [l] && multiset([l]) == multiset{l};
      NoPartnerCounts(l, a, b, c, rows, outer, r);
    } else {
      PartnerCounts(l, a, b, c, rows, outer, r);
    }
  }

  lemma JoinCountAdds(
    ls: multiset<Joined>, l: Joined, a: Table, b: Table, c: Column, rows: seq<TableRow>, outer: bool, r: Joined)
    ensures JoinCount(ls + multiset{l}, a, b, c, rows, outer, r)
         == JoinCount(ls, a, b, c, rows, outer, r) + JoinCount(multiset{l}, a, b, c, rows, outer, r)
  {
    if b in r && Linked(r, a, b, c) {
      Distribute(ls[r - {b}], multiset{l}[r - {b}], multiset(rows)[r[b]]);
    }
  }

  lemma Distribute(x: nat, y: nat, z: nat)
    ensures (x + y) * z == x * z + y * z
  {}

  lemma {:induction false} JoinCounts(
    ls: seq<Joined>, a: Table, b: Table, c: Column, rows: seq<TableRow>, outer: bool, r: Joined)
    requires a != b && forall l | l in ls :: b !in l
    ensures multiset(JoinRows(ls, b, rows, Origin(a, c), c, outer))[r]
         == JoinCount(multiset(ls), a, b, c, rows, outer, r)
  {
    if ls == [] {
      assert multiset(ls) == multiset{};
    } else {
      var n := |ls| - 1;
      assert ls == ls[..n] + [ls[n]];
      JoinCounts(ls[..n], a, b, c, rows, outer, r);
      JoinOneCounts(ls[n], a, b, c, rows, outer, r);
      JoinCountAdds(multiset(ls[..n]), ls[n], a, b, c, rows, outer, r);
      assert multiset(ls) == multiset(ls[..n]) + multiset{ls[n]};
      assert JoinRows(ls, b, rows, Origin(a, c), c, outer)
          == JoinRows(ls[..n], b, rows, Origin(a, c), c, outer) + JoinOne(ls[n], b, rows, Origin(a, c), c, outer);
    }
  }

  // ----- the whole source -----

  function TablesOf(s: Source): set<Table> {
    match s
    case Base(t) => {t}
    case Join(left, t, _, _, _) => TablesOf(left) + {t}
  }

  lemma {:induction false} MatchingWithin(l: Joined, t: Table, rows: seq<TableRow>, on: Origin, key: Column)
    ensures forall r | r in Matching(l, t, rows, on, key) :: r.Keys == l.Keys + {t}
  {
    if rows != [] { MatchingWithin(l, t, rows[..|rows| - 1], on, key); }
  }

  lemma {:induction false} JoinWithin(
    ls: seq<Joined>, t: Table, rows: seq<TableRow>, on: Origin, key: Column, outer: bool, tables: set<Table>)
    requires forall l | l in ls :: l.Keys <= tables
    ensures forall r | r in JoinRows(ls, t, rows, on, key, outer) :: r.Keys <= tables + {t}
  {
    if ls != [] {
      var n := |ls| - 1;
      JoinWithin(ls[..n], t, rows, on, key, outer, tables);
      MatchingWithin(ls[n], t, rows, on, key);
      assert ls[n] in ls;
    }
  }

  lemma {:induction false} RowsWithin(db: Database, s: Source)
    ensures forall r | r in SourceRows(db, s) :: r.Keys <= TablesOf(s)
  {
    match s
    case Base(t) =>
    case Join(left, t, on, key, outer) =>
      RowsWithin(db, left);
      JoinWithin(SourceRows(db, left), t, db(t), on, key, outer, TablesOf(left));
  }

  function Occurs(db: Database, s: Source, r: Joined): nat { multiset(SourceRows(db, s))[r] }

  lemma BaseOccurs(db: Database, t: Table, r: Joined)
    ensures Occurs(db, Base(t), r) == if r.Keys == {t} then multiset(db(t))[r[t]] else 0
  {
    BaseCounts(db(t), t, r);
    assert SourceRows(db, Base(t)) == Singles(db(t), t);
  }

  function Singles(rows: seq<TableRow>, t: Table): seq<Joined> {
    seq(|rows|, i requires 0 <= i < |rows| => map[t := rows[i]])
  }

  lemma {:induction false} BaseCounts(rows: seq<TableRow>, t: Table, r: Joined)
    ensures multiset(Singles(rows, t))[r] == if r.Keys == {t} then multiset(rows)[r[t]] else 0
  {
    if rows == [] {
      assert Singles(rows, t) == [];
    } else {
      var n := |rows| - 1;
      BaseCounts(rows[..n], t, r);
      assert rows == rows[..n] + [rows[n]];
      assert Singles(rows, t) == Singles(rows[..n], t) + [map[t := rows[n]]];
      SingleRow(rows[n], t, r);
    }
  }

  lemma SingleRow(row: TableRow, t: Table, r: Joined)
    ensures map[t := row] == r <==> r.Keys == {t} && r[t] == row
  {
    if r.Keys == {t} { assert r == map[t := r[t]]; }
  }

  lemma WithOccurs(db: Database, part: Part, t: Table, on: Origin, outer: bool, r: Joined)
    requires on.table != t && t !in TablesOf(part.source)
    ensures Occurs(db, part.With(t, on, outer).source, r) ==
      if t in r then
        if Linked(r, on.table, t, on.column) then Occurs(db, part.source, r - {t}) * multiset(db(t))[r[t]] else 0
      else if outer && !HasPartner(r, on.table, t, on.column, db(t)) then Occurs(db, part.source, r) else 0
  {
    RowsWithin(db, part.source);
    JoinCounts(SourceRows(db, part.source), on.table, t, on.column, db(t), outer, r);
  }

  // ----- what belongs together -----

  /** The tables that are read: those of the plan, and the cards that link transactions to customers. */
  function Wanted(tables: set<Table>): set<Table> {
    if TransactionTable in tables && CustomerTable in tables then tables + {CardTable} else tables
  }

  /**
   The rows of a joined row belong together: a transaction with its merchant, if there is one, its
   business code, and the card and customer it was made with; a merchant with its business code.
   */
  predicate Assembled(db: Database, tables: set<Table>, r: Joined) {
    && r.Keys <= Wanted(tables)
    && (forall t | t in Wanted(tables) && t !in r :: t == MerchantTable && TransactionTable in tables)
    && if TransactionTable in tables then
         && (MerchantTable in r ==> Linked(r, TransactionTable, MerchantTable, MerchantId))
         && (MerchantTable in tables && MerchantTable !in r ==>
               !HasPartner(r, TransactionTable, MerchantTable, MerchantId, db(MerchantTable)))
         && (MccTable in r ==> Linked(r, TransactionTable, MccTable, MccCode))
         && (CustomerTable in r ==>
               && Linked(r, TransactionTable, CardTable, CardNumberMasked)
               && Linked(r, CardTable, CustomerTable, CustomerId))
       else MerchantTable in r && MccTable in r ==> Linked(r, MerchantTable, MccTable, MccCode)
  }

  function Copies(db: Database, r: Joined, t: Table): nat { if t in r then multiset(db(t))[r[t]] else 1 }

  function Times(x: nat, y: nat): nat { x * y }

  /** How often each of the rows occurs in its table, multiplied. */
  function AllCopies(db: Database, r: Joined): nat {
    Times(Times(Copies(db, r, TransactionTable), Copies(db, r, MerchantTable)),
          Times(Copies(db, r, MccTable), Times(Copies(db, r, CardTable), Copies(db, r, CustomerTable))))
  }

  function Expected(db: Database, tables: set<Table>, r: Joined): nat {
    if Assembled(db, tables, r) then AllCopies(db, r) else 0
  }

  lemma LinkedWithin(r: Joined, t: Table, a: Table, b: Table, c: Column)
    requires t != a && t != b
    ensures Linked(r - {t}, a, b, c) == Linked(r, a, b, c)
  {}

  lemma PartnerWithin(r: Joined, t: Table, a: Table, b: Table, c: Column, rows: seq<TableRow>)
    requires t != a && t != b
    ensures HasPartner(r - {t}, a, b, c, rows) == HasPartner(r, a, b, c, rows)
  {
    if HasPartner(r - {t}, a, b, c, rows) {
      var row :| row in rows && Linked((r - {t})[b := row], a, b, c);
      PartnerRow(r, t, a, b, c, row);
    }
    if HasPartner(r, a, b, c, rows) {
      var row :| row in rows && Linked(r[b := row], a, b, c);
      PartnerRow(r, t, a, b, c, row);
    }
  }

  lemma PartnerRow(r: Joined, t: Table, a: Table, b: Table, c: Column, row: TableRow)
    requires t != a && t != b
    ensures Linked((r - {t})[b := row], a, b, c) == Linked(r[b := row], a, b, c)
  {}

  lemma Rearrange(a: nat, m: nat, c: nat, k: nat, u: nat)
    ensures Times(Times(a, m), Times(c, Times(k, u))) == Times(Times(1, m), Times(c, Times(k, u))) * a
    ensures Times(Times(a, m), Times(c, Times(k, u))) == Times(Times(a, 1), Times(c, Times(k, u))) * m
    ensures Times(Times(a, m), Times(c, Times(k, u))) == Times(Times(a, m), Times(1, Times(k, u))) * c
    ensures Times(Times(a, m), Times(c, Times(k, u))) == Times(Times(a, m), Times(c, Times(1, u))) * k
    ensures Times(Times(a, m), Times(c, Times(k, u))) == Times(Times(a, m), Times(c, Times(k, 1))) * u
  {}

  lemma CopiesWithout(db: Database, r: Joined, t: Table)
    requires t in r
    ensures AllCopies(db, r) == AllCopies(db, r - {t}) * multiset(db(t))[r[t]]
  {
    Rearrange(Copies(db, r, TransactionTable), Copies(db, r, MerchantTable), Copies(db, r, MccTable),
      Copies(db, r, CardTable), Copies(db, r, CustomerTable));
    assert forall u | u != t :: Copies(db, r - {t}, u) == Copies(db, r, u);
    assert Copies(db, r - {t}, t) == 1;
  }

  lemma SingleExpected(db: Database, t: Table, r: Joined)
    ensures Occurs(db, Base(t), r) == Expected(db, {t}, r)
  {
    BaseOccurs(db, t, r);
    if r.Keys == {t} {
      CopiesWithout(db, r, t);
      assert (r - {t}).Keys == {};
      assert AllCopies(db, r - {t}) == 1;
    }
  }

  /** Taking one linked row away divides the expected count by how often it occurs. */
  lemma ExpectedWithout(db: Database, before: set<Table>, tables: set<Table>, t: Table, linked: bool, r: Joined)
    requires t in r && (Assembled(db, tables, r) <==> Assembled(db, before, r - {t}) && linked)
    ensures Expected(db, tables, r) == if linked then Expected(db, before, r - {t}) * multiset(db(t))[r[t]] else 0
  {
    CopiesWithout(db, r, t);
  }

  lemma MerchantAssembled(db: Database, r: Joined)
    ensures MerchantTable in r ==> (Assembled(db, {TransactionTable, MerchantTable}, r) <==>
      Assembled(db, {TransactionTable}, r - {MerchantTable}) && Linked(r, TransactionTable, MerchantTable, MerchantId))
    ensures MerchantTable !in r ==> (Assembled(db, {TransactionTable, MerchantTable}, r) <==>
      Assembled(db, {TransactionTable}, r)
      && !HasPartner(r, TransactionTable, MerchantTable, MerchantId, db(MerchantTable)))
  {
    assert Wanted({TransactionTable}) == {TransactionTable};
    assert Wanted({TransactionTable, MerchantTable}) == {TransactionTable, MerchantTable};
  }

  lemma MerchantsExpected(db: Database, tables: set<Table>, r: Joined)
    requires TransactionTable in tables
    ensures Occurs(db, WithMerchants(tables).source, r)
         == Expected(db, tables * {TransactionTable, MerchantTable}, r)
  {
    SingleExpected(db, TransactionTable, r);
    if MerchantTable in tables {
      assert tables * {TransactionTable, MerchantTable} == {TransactionTable, MerchantTable};
      WithOccurs(db, Part(Base(TransactionTable), [TransactionTable]), MerchantTable, MERCHANT_ID, true, r);
      MerchantAssembled(db, r);
      if MerchantTable in r {
        SingleExpected(db, TransactionTable, r - {MerchantTable});
        ExpectedWithout(db, {TransactionTable}, {TransactionTable, MerchantTable}, MerchantTable,
          Linked(r, TransactionTable, MerchantTable, MerchantId), r);
      }
    } else {
      assert tables * {TransactionTable, MerchantTable} == {TransactionTable};
    }
  }

  lemma MccAssembled(db: Database, before: set<Table>, r: Joined)
    requires TransactionTable in before && before <= {TransactionTable, MerchantTable}
    ensures Assembled(db, before + {MccTable}, r) <==>
      MccTable in r && Assembled(db, before, r - {MccTable}) && Linked(r, TransactionTable, MccTable, MccCode)
  {
    assert Wanted(before) == before && Wanted(before + {MccTable}) == before + {MccTable};
    LinkedWithin(r, MccTable, TransactionTable, MerchantTable, MerchantId);
    PartnerWithin(r, MccTable, TransactionTable, MerchantTable, MerchantId, db(MerchantTable));
  }

  lemma MccExpected(db: Database, tables: set<Table>, r: Joined)
    requires TransactionTable in tables
    ensures Occurs(db, WithMccCodes(tables).source, r)
         == Expected(db, tables * {TransactionTable, MerchantTable, MccTable}, r)
  {
    MerchantsExpected(db, tables, r);
    var before := tables * {TransactionTable, MerchantTable};
    if MccTable in tables {
      assert tables * {TransactionTable, MerchantTable, MccTable} == before + {MccTable};
      WithOccurs(db, WithMerchants(tables), MccTable, TRANSACTION_MCC, false, r);
      MccAssembled(db, before, r);
      if MccTable in r {
        MerchantsExpected(db, tables, r - {MccTable});
        ExpectedWithout(db, before, before + {MccTable}, MccTable, Linked(r, TransactionTable, MccTable, MccCode), r);
      }
    } else {
      assert tables * {TransactionTable, MerchantTable, MccTable} == before;
    }
  }

  lemma CustomerAssembled(db: Database, before: set<Table>, r: Joined)
    requires TransactionTable in before && before <= {TransactionTable, MerchantTable, MccTable}
    ensures Assembled(db, before + {CustomerTable}, r) <==>
      && CustomerTable in r && CardTable in r && Assembled(db, before, r - {CustomerTable} - {CardTable})
      && Linked(r, TransactionTable, CardTable, CardNumberMasked) && Linked(r, CardTable, CustomerTable, CustomerId)
  {
    var rest := r - {CustomerTable} - {CardTable};
    assert Wanted(before) == before && Wanted(before + {CustomerTable}) == before + {CardTable, CustomerTable};
    assert rest.Keys == r.Keys - {CustomerTable, CardTable};
    assert forall t | t in rest :: rest[t] == r[t];
    LinkedWithin(r, CustomerTable, TransactionTable, MerchantTable, MerchantId);
    LinkedWithin(r - {CustomerTable}, CardTable, TransactionTable, MerchantTable, MerchantId);
    LinkedWithin(r, CustomerTable, TransactionTable, MccTable, MccCode);
    LinkedWithin(r - {CustomerTable}, CardTable, TransactionTable, MccTable, MccCode);
    PartnerWithin(r, CustomerTable, TransactionTable, MerchantTable, MerchantId, db(MerchantTable));
    PartnerWithin(r - {CustomerTable}, CardTable, TransactionTable, MerchantTable, MerchantId, db(MerchantTable));
  }

  lemma CardsOccur(db: Database, tables: set<Table>, r: Joined)
    requires TransactionTable in tables
    ensures Occurs(db, WithCards(tables).source, r) ==
      if CardTable in r && Linked(r, TransactionTable, CardTable, CardNumberMasked)
      then Occurs(db, WithMccCodes(tables).source, r - {CardTable}) * multiset(db(CardTable))[r[CardTable]] else 0
  {
    WithOccurs(db, WithMccCodes(tables), CardTable, TRANSACTION_CARD, false, r);
  }

  lemma CustomersOccur(db: Database, tables: set<Table>, r: Joined)
    requires TransactionTable in tables && CustomerTable in tables
    ensures Occurs(db, TransactionSource(tables).source, r) ==
      if CustomerTable in r && Linked(r, CardTable, CustomerTable, CustomerId)
      then Occurs(db, WithCards(tables).source, r - {CustomerTable}) * multiset(db(CustomerTable))[r[CustomerTable]]
      else 0
  {
    WithOccurs(db, WithCards(tables), CustomerTable, CARD_CUSTOMER, false, r);
  }

  lemma TablesSplit(tables: set<Table>)
    requires CardTable !in tables
    ensures tables == tables * {TransactionTable, MerchantTable, MccTable}
                    + if CustomerTable in tables then {CustomerTable} else {}
  {
    forall t | t in tables ensures t in {TransactionTable, MerchantTable, MccTable} || t == CustomerTable {
      assert t.MccTable? || t.CustomerTable? || t.MerchantTable? || t.TransactionTable?;
    }
  }

  predicate CustomerLinked(r: Joined) {
    && CustomerTable in r && CardTable in r
    && Linked(r, TransactionTable, CardTable, CardNumberMasked) && Linked(r, CardTable, CustomerTable, CustomerId)
  }

  lemma CustomersExpected(db: Database, before: set<Table>, r: Joined)
    requires TransactionTable in before && before <= {TransactionTable, MerchantTable, MccTable}
    ensures Expected(db, before + {CustomerTable}, r) == if CustomerLinked(r)
      then Expected(db, before, r - {CustomerTable} - {CardTable})
           * multiset(db(CardTable))[r[CardTable]] * multiset(db(CustomerTable))[r[CustomerTable]]
      else 0
  {
    CustomerAssembled(db, before, r);
    if CustomerLinked(r) {
      CopiesWithout(db, r, CustomerTable);
      CopiesWithout(db, r - {CustomerTable}, CardTable);
    }
  }

  lemma CustomersCounted(db: Database, tables: set<Table>, r: Joined)
    requires TransactionTable in tables && CustomerTable in tables
    ensures Occurs(db, TransactionSource(tables).source, r) == if CustomerLinked(r)
      then Occurs(db, WithMccCodes(tables).source, r - {CustomerTable} - {CardTable})
           * multiset(db(CardTable))[r[CardTable]] * multiset(db(CustomerTable))[r[CustomerTable]]
      else 0
  {
    CustomersOccur(db, tables, r);
    CardsOccur(db, tables, r - {CustomerTable});
    LinkedWithin(r, CustomerTable, TransactionTable, CardTable, CardNumberMasked);
  }

  lemma TransactionsExpected(db: Database, tables: set<Table>, r: Joined)
    requires TransactionTable in tables && CardTable !in tables
    ensures Occurs(db, TransactionSource(tables).source, r) == Expected(db, tables, r)
  {
    var before := tables * {TransactionTable, MerchantTable, MccTable};
    TablesSplit(tables);
    if CustomerTable in tables {
      CustomersCounted(db, tables, r);
      CustomersExpected(db, before, r);
      MccExpected(db, tables, r - {CustomerTable} - {CardTable});
    } else {
      MccExpected(db, tables, r);
    }
  }

  lemma MerchantCodesAssembled(db: Database, r: Joined)
    ensures Assembled(db, {MerchantTable, MccTable}, r) <==>
      MccTable in r && Assembled(db, {MerchantTable}, r - {MccTable}) && Linked(r, MerchantTable, MccTable, MccCode)
  {
    assert Wanted({MerchantTable, MccTable}) == {MerchantTable, MccTable} && Wanted({MerchantTable}) == {MerchantTable};
  }

  lemma MerchantCodesExpected(db: Database, r: Joined)
    ensures var merchants := Part(Base(MerchantTable), [MerchantTable]);
      var part := merchants.With(MccTable, Origin(MerchantTable, MccCode), false);
      Occurs(db, part.source, r) == Expected(db, {MerchantTable, MccTable}, r)
  {
    WithOccurs(db, Part(Base(MerchantTable), [MerchantTable]), MccTable, Origin(MerchantTable, MccCode), false, r);
    MerchantCodesAssembled(db, r);
    if MccTable in r {
      SingleExpected(db, MerchantTable, r - {MccTable});
      ExpectedWithout(db, {MerchantTable}, {MerchantTable, MccTable}, MccTable,
        Linked(r, MerchantTable, MccTable, MccCode), r);
    }
  }

  /**
   The joined source of a plan holds a combination of rows exactly when they belong together, and
   as often as the rows occur in their tables.
   */
  lemma SourceMeans(db: Database, datasets: seq<Dataset>, r: Joined)
    requires datasets != [] && JoinedSource(datasets).Accepted?
    ensures multiset(SourceRows(db, JoinedSource(datasets).value.source))[r]
         == if Assembled(db, Tables(datasets), r) then AllCopies(db, r) else 0
  {
    var tables := Tables(datasets);
    assert CardTable !in tables;
    assert TableOf(datasets[0]) in tables;
    if TransactionTable in tables {
      TransactionsExpected(db, tables, r);
    } else if MccTable in tables && MerchantTable in tables && CustomerTable !in tables {
      TablesSplit(tables);
      assert tables == {MerchantTable, MccTable};
      MerchantCodesExpected(db, r);
    } else {
      OneTable(tables, TableOf(datasets[0]));
      SingleExpected(db, TableOf(datasets[0]), r);
    }
  }

  lemma OneTable(tables: set<Table>, t: Table)
    requires t in tables && CardTable !in tables && TransactionTable !in tables
    requires !(MccTable in tables && MerchantTable in tables && CustomerTable !in tables)
    requires !(CustomerTable in tables && (MerchantTable in tables || MccTable in tables))
    ensures tables == {t}
  {
    forall u | u in tables ensures u == t {
      assert u.MccTable? || u.CustomerTable? || u.MerchantTable?;
    }
  }
}
