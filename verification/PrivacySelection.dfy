/**
 The two rewritings of a model's source selection before it is checked: filter keys missing from
 the source columns are completed from the metadata, and a combination of person attributes with
 row identifiers loses the identifiers.
 Follows `_normalize_filter_columns` and `_normalize_privacy_selection` in
 agent_runtime/data_selection/agent.py.
 */
module PrivacySelection {
  import opened Values
  import opened QueryRegistry
  import opened SelectionQuery

  /** An entry of `source_columns`; `column` is None when it is no string. */
  datatype Item = Item(dataset: string, column: Option<Name>) | NoObject

  datatype MetadataColumn = MetadataColumn(dataset: string, column: Name)

  /**
   `tables` are the named selected tables, `filters` the query's filters if it has any, `terms` the
   term of every interpretation if there is a list of them.
   */
  datatype Design = Design(
    tables: set<string>, sources: seq<Item>, filters: Option<seq<(Name, Value)>>, terms: Option<seq<Option<Name>>>)

  function Names(items: seq<Item>): set<Name> {
    set i | 0 <= i < |items| && items[i].Item? && items[i].column.Some? :: items[i].column.value
  }

  function Keys(filters: seq<(Name, Value)>): set<Name> { set f | f in filters :: f.0 }

  function FilterKeys(d: Design): set<Name> { if d.filters.Some? then Keys(d.filters.value) else {} }

  // ----- completing filter keys -----

  /** The metadata columns of the selected tables, or of all when none is selected, with this name. */
  function Matches(metadata: seq<MetadataColumn>, tables: set<string>, name: Name): seq<MetadataColumn> {
    if metadata == [] then []
    else
      var m := metadata[|metadata| - 1];
      var before := Matches(metadata[..|metadata| - 1], tables, name);
      if (tables == {} || m.dataset in tables) && m.column == name then before + [m] else before
  }

  function Added(metadata: seq<MetadataColumn>, tables: set<string>, items: seq<Item>, name: Name): seq<Item> {
    var matches := Matches(metadata, tables, name);
    if name in Names(items) || |matches| != 1 then items else items + [Item(matches[0].dataset, Some(name))]
  }

  function Completed(
    metadata: seq<MetadataColumn>, tables: set<string>, items: seq<Item>, filters: seq<(Name, Value)>): seq<Item>
  {
    if filters == [] then items
    else Added(metadata, tables, Completed(metadata, tables, items, filters[..|filters| - 1]), filters[|filters| - 1].0)
  }

  /** `_normalize_filter_columns`. */
  function FilterColumns(metadata: seq<MetadataColumn>, d: Design): Design {
    if d.filters.None? then d else d.(sources := Completed(metadata, d.tables, d.sources, d.filters.value))
  }

  method NormalizeFilterColumns(metadata: seq<MetadataColumn>, d: Design) returns (r: Design)
    ensures r == FilterColumns(metadata, d)
  {
    if d.filters.None? { return d; }
    var filters := d.filters.value;
    var items, existing := d.sources, Names(d.sources);
    for i := 0 to |filters|
      invariant items == Completed(metadata, d.tables, d.sources, filters[..i])
      invariant existing == Names(items)
    {
      assert filters[..i + 1][..i] == filters[..i];
      var name := filters[i].0;
      if name !in existing {
        var matches := Matches(metadata, d.tables, name);
        if |matches| == 1 {
          NamesAppend(items, Item(matches[0].dataset, Some(name)));
          items := items + [Item(matches[0].dataset, Some(name))];
          existing := existing + {name};
        }
      }
    }
    assert filters[..|filters|] == filters;
    r := d.(sources := items);
  }

  lemma NamesAppend(items: seq<Item>, item: Item)
    ensures Names(items + [item]) == Names(items) + if item.Item? && item.column.Some? then {item.column.value} else {}
  {
    var all := items + [item];
    forall n | n in Names(items) ensures n in Names(all) {
      var i :| 0 <= i < |items| && items[i].Item? && items[i].column.Some? && items[i].column.value == n;
      assert all[i] == items[i];
    }
    assert all[|items|] == item;
  }

  /** What completing adds: exactly the missing keys that one metadata column has; the rest is kept. */
  lemma {:induction false} CompletedNames(
    metadata: seq<MetadataColumn>, tables: set<string>, items: seq<Item>, filters: seq<(Name, Value)>)
    ensures items <= Completed(metadata, tables, items, filters)
    ensures Names(Completed(metadata, tables, items, filters))
         == Names(items) + set n | n in Keys(filters) && |Matches(metadata, tables, n)| == 1
  {
    if filters == [] {
      assert Keys(filters) == {};
    } else {
      var n := |filters| - 1;
      assert filters == filters[..n] + [filters[n]];
      CompletedNames(metadata, tables, items, filters[..n]);
      var before := Completed(metadata, tables, items, filters[..n]);
      assert Keys(filters) == Keys(filters[..n]) + {filters[n].0};
      var matches := Matches(metadata, tables, filters[n].0);
      if |matches| == 1 { NamesAppend(before, Item(matches[0].dataset, Some(filters[n].0))); }
    }
  }

  // ----- removing identifiers -----

  function OwnColumns(names: set<Name>): set<Column> { set n | n in names && n.Own? :: n.column }

  function Persons(d: Design): set<Column> { OwnColumns(Names(d.sources)) * PERSON_ATTRIBUTES }

  function Identifiers(d: Design): set<Column> { OwnColumns(Names(d.sources)) * ROW_IDENTIFIERS }

  predicate Conflict(d: Design) { |Persons(d)| >= 2 && Identifiers(d) != {} }

  predicate Keeps(identifiers: set<Column>, name: Option<Name>) {
    name.Some? && name.value.Own? ==> name.value.column !in identifiers
  }

  function Without(identifiers: set<Column>, items: seq<Item>): seq<Item> {
    if items == [] then []
    else
      var n := |items| - 1;
      if items[n].Item? ==> Keeps(identifiers, items[n].column) then Without(identifiers, items[..n]) + [items[n]]
      else Without(identifiers, items[..n])
  }

  function FiltersWithout(identifiers: set<Column>, filters: seq<(Name, Value)>): seq<(Name, Value)> {
    if filters == [] then []
    else
      var n := |filters| - 1;
      if Keeps(identifiers, Some(filters[n].0)) then FiltersWithout(identifiers, filters[..n]) + [filters[n]]
      else FiltersWithout(identifiers, filters[..n])
  }

  /** One interpretation per removed column that has none yet. */
  function Notices(existing: seq<Option<Name>>, removed: seq<Column>): seq<Option<Name>> {
    if removed == [] then []
    else
      var n := |removed| - 1;
      if Some(Own(removed[n])) in existing then Notices(existing, removed[..n])
      else Notices(existing, removed[..n]) + [Some(Own(removed[n]))]
  }

  /** `_normalize_privacy_selection`; `sorted` orders column names. */
  function Private(sorted: set<Column> -> seq<Column>, d: Design): Design {
    if !Conflict(d) then d
    else
      var identifiers := Identifiers(d);
      var terms := if d.terms.Some? then d.terms.value else [];
      d.(sources := Without(identifiers, d.sources),
         filters := if d.filters.Some? then Some(FiltersWithout(identifiers, d.filters.value)) else None,
         terms := Some(terms + Notices(terms, sorted(identifiers))))
  }

  method NormalizePrivacySelection(sorted: set<Column> -> seq<Column>, d: Design) returns (r: Design)
    ensures r == Private(sorted, d)
  {
    if !Conflict(d) { return d; }
    var identifiers := Identifiers(d);
    var existing := if d.terms.Some? then d.terms.value else [];
    var removed, added: seq<Option<Name>> := sorted(identifiers), [];
    for i := 0 to |removed|
      invariant added == Notices(existing, removed[..i])
    {
      assert removed[..i + 1][..i] == removed[..i];
      if Some(Own(removed[i])) !in existing { added := added + [Some(Own(removed[i]))]; }
    }
    assert removed[..|removed|] == removed;
    r := d.(sources := Without(identifiers, d.sources),
            filters := if d.filters.Some? then Some(FiltersWithout(identifiers, d.filters.value)) else None,
            terms := Some(existing + added));
  }

  lemma {:induction false} WithoutNames(identifiers: set<Column>, items: seq<Item>)
    ensures Names(Without(identifiers, items)) == set n | n in Names(items) && Keeps(identifiers, Some(n))
  {
    if items != [] {
      var n := |items| - 1;
      assert items == items[..n] + [items[n]];
      WithoutNames(identifiers, items[..n]);
      NamesAppend(items[..n], items[n]);
      NamesAppend(Without(identifiers, items[..n]), items[n]);
    }
  }

  lemma {:induction false} FiltersWithoutKeys(identifiers: set<Column>, filters: seq<(Name, Value)>)
    ensures Keys(FiltersWithout(identifiers, filters)) == set n | n in Keys(filters) && Keeps(identifiers, Some(n))
  {
    if filters != [] {
      var n := |filters| - 1;
      assert filters == filters[..n] + [filters[n]];
      FiltersWithoutKeys(identifiers, filters[..n]);
      assert Keys(filters) == Keys(filters[..n]) + {filters[n].0};
      var kept := FiltersWithout(identifiers, filters[..n]);
      assert Keys(kept + [filters[n]]) == Keys(kept) + {filters[n].0};
    }
  }

  lemma {:induction false} NoticesCover(existing: seq<Option<Name>>, removed: seq<Column>)
    ensures forall c | c in removed :: Some(Own(c)) in existing + Notices(existing, removed)
  {
    if removed != [] {
      NoticesCover(existing, removed[..|removed| - 1]);
      assert removed == removed[..|removed| - 1] + [removed[|removed| - 1]];
    }
  }

  /**
   Removing identifiers resolves the conflict and is then done; it takes away the identifiers in
   conflict and nothing else, from the columns and from the filters alike, and each of them is
   reported.
   */
  lemma PrivateIsSafe(sorted: set<Column> -> seq<Column>, d: Design)
    requires forall s :: ToColumns(sorted(s)) == s
    ensures var r := Private(sorted, d); var removed := if Conflict(d) then Identifiers(d) else {};
      && !Conflict(r) && Private(sorted, r) == r
      && Names(r.sources) == (set n | n in Names(d.sources) && Keeps(removed, Some(n)))
      && FilterKeys(r) == (set n | n in FilterKeys(d) && Keeps(removed, Some(n)))
      && (FilterKeys(d) <= Names(d.sources) ==> FilterKeys(r) <= Names(r.sources))
      && forall c | c in removed :: r.terms.Some? && Some(Own(c)) in r.terms.value
  {
    if Conflict(d) {
      var removed := Identifiers(d);
      WithoutNames(removed, d.sources);
      if d.filters.Some? { FiltersWithoutKeys(removed, d.filters.value); }
      assert ToColumns(sorted(removed)) == removed;
      assert forall c | c in removed :: c in ToColumns(sorted(removed));
      NoticesCover(if d.terms.Some? then d.terms.value else [], sorted(removed));
      assert Identifiers(Private(sorted, d)) == {};
    }
  }

  function ToColumns(columns: seq<Column>): set<Column> { set c | c in columns }

  // ----- rule A -----

  /** The query columns generated from the sources: every distinct name, in order. */
  function QueryColumns(items: seq<Item>): seq<Name>
    requires forall i | 0 <= i < |items| :: items[i].Item? && items[i].column.Some?
  {
    Distinct(seq(|items|, i requires 0 <= i < |items| && items[i].Item? && items[i].column.Some? =>
      items[i].column.value))
  }

  predicate RealColumns(items: seq<Item>) {
    forall i | 0 <= i < |items| :: items[i].Item? && items[i].column.Some? && items[i].column.value.Own?
  }

  lemma QueryColumnNames(items: seq<Item>)
    requires RealColumns(items)
    ensures forall n :: n in QueryColumns(items) <==> n in Names(items)
  {
    var names :=
      seq(|items|, i requires 0 <= i < |items| && items[i].Item? && items[i].column.Some? => items[i].column.value);
    forall n | n in Names(items) ensures n in names {
      var i :| 0 <= i < |items| && items[i].column.value == n;
      assert names[i] == n;
    }
  }

  lemma ResolvedOwn(names: seq<Name>, allowed: set<Column>)
    requires forall n | n in names :: n.Own?
    ensures Resolved(names, allowed) == names
  {
    forall i | 0 <= i < |names| ensures Resolve(names[i], allowed) == names[i] {
      assert names[i] in names;
      ResolveOwn(names[i].column, allowed);
    }
  }

  lemma {:induction false} DistinctTwice<T(!new)>(xs: seq<T>)
    requires forall i, j | 0 <= i < j < |xs| :: xs[i] != xs[j]
    ensures Distinct(xs) == xs
  {
    if xs != [] {
      DistinctTwice(xs[..|xs| - 1]);
      assert xs == xs[..|xs| - 1] + [xs[|xs| - 1]];
    }
  }

  lemma SameConflict(columns: seq<Name>, d: Design)
    requires (forall n | n in columns :: n.Own?) && (forall n :: n in columns <==> n in Names(d.sources))
    ensures IdentifierConflict(Columns(columns)) <==> Conflict(d)
  {
    var own := Columns(columns);
    forall c ensures c in own <==> Own(c) in columns {
      if Own(c) in columns {
        var i :| 0 <= i < |columns| && columns[i] == Own(c);
        assert own[i] == c;
      }
      if c in own {
        var i :| 0 <= i < |own| && own[i] == c;
        assert columns[i] in columns && columns[i] == Own(c);
      }
    }
    assert Members(own, PERSON_ATTRIBUTES) == Persons(d);
    assert Members(own, ROW_IDENTIFIERS) == Identifiers(d);
  }

  /**
   After both rewritings, a selection that names real columns never trips the identifier rule
   when its plan is built from the generated query columns.
   */
  lemma PlanNeverTripsRule(
      lower: Value -> string, sorted: set<Column> -> seq<Column>, metadata: seq<MetadataColumn>, d: Design,
      tables: seq<Option<Dataset>>, limit: Option<int>, filters: seq<(Name, Value)>)
    requires forall s :: ToColumns(sorted(s)) == s
    requires RealColumns(Private(sorted, FilterColumns(metadata, d)).sources)
    ensures Build(lower,
      Selection(tables, limit, Some(QueryColumns(Private(sorted, FilterColumns(metadata, d)).sources)), filters))
         != Refused(IdentifierRule)
  {
    var r := Private(sorted, FilterColumns(metadata, d));
    var columns := QueryColumns(r.sources);
    PrivateIsSafe(sorted, FilterColumns(metadata, d));
    QueryColumnNames(r.sources);
    forall n | n in columns ensures n.Own? {
      assert n in Names(r.sources);
    }
    SameConflict(columns, r);
    DistinctTwice(columns);
    UnconflictedPlan(lower, Selection(tables, limit, Some(columns), filters), columns);
  }

  /** A selection of distinct real columns without conflict is not refused by the identifier rule. */
  lemma UnconflictedPlan(lower: Value -> string, s: Selection, columns: seq<Name>)
    requires s.columns == Some(columns) && (forall n | n in columns :: n.Own?) && Distinct(columns) == columns
    requires !IdentifierConflict(Columns(columns))
    ensures Build(lower, s) != Refused(IdentifierRule)
  {
    if s.limit.Some? && forall t | t in s.tables :: t.Some? {
      var datasets := Distinct(Present(s.tables));
      ResolvedOwn(columns, Allowed(datasets));
      FilterErrors(lower, Allowed(datasets), s.filters);
    }
  }

  lemma {:induction false} FilterErrors(lower: Value -> string, allowed: set<Column>, filters: seq<(Name, Value)>)
    ensures FiltersOf(lower, allowed, filters).Refused? ==>
      FiltersOf(lower, allowed, filters).error in {FilterNotAllowed, BadFilter}
  {
    if filters != [] { FilterErrors(lower, allowed, filters[..|filters| - 1]); }
  }
}
