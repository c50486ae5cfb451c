/**
 What removing identifiers from a design leaves, item by item, and which columns no accepted plan
 can ever name.
 */
module PrivacyMeaning {
  import opened Values
  import opened QueryRegistry
  import opened SelectionQuery
  import opened PrivacySelection

  // ----- what is picked -----

  /** The places up to `n` that are kept, in order. */
  ghost predicate Picks(keeps: nat -> bool, n: nat, places: seq<nat>) {
    && (forall i: nat :: i in places <==> i < n && keeps(i))
    && (forall k, m | 0 <= k < m < |places| :: places[k] < places[m])
  }

  lemma PicksNext(keeps: nat -> bool, n: nat, places: seq<nat>) returns (more: seq<nat>)
    requires Picks(keeps, n, places)
    ensures Picks(keeps, n + 1, more) && more == if keeps(n) then places + [n] else places
  {
    more := if keeps(n) then places + [n] else places;
    forall i: nat ensures i in more <==> i < n + 1 && keeps(i) {
      assert i in more <==> i in places || (i == n && keeps(n));
    }
    assert forall k | 0 <= k < |places| :: places[k] in places;
  }

  /** These elements, at these places. */
  ghost predicate Taken<T>(all: seq<T>, keeps: nat -> bool, places: seq<nat>, r: seq<T>) {
    && Picks(keeps, |all|, places) && |r| == |places|
    && forall k | 0 <= k < |places| :: places[k] in places && r[k] == all[places[k]]
  }

  // ----- removing identifiers -----

  /** The name is a column of the registry, and one of these. */
  predicate Names(name: Option<Name>, columns: set<Column>) {
    match name case Some(Own(c)) => c in columns case _ => false
  }

  function SourceStays(items: seq<Item>, columns: set<Column>): nat -> bool {
    (i: nat) => i < |items| && !(items[i].Item? && Names(items[i].column, columns))
  }

  function FilterStays(filters: seq<(Name, Value)>, columns: set<Column>): nat -> bool {
    (i: nat) => i < |filters| && !Names(Some(filters[i].0), columns)
  }

  function NoticeIsNew(existing: seq<Option<Name>>, removed: seq<Column>): nat -> bool {
    (i: nat) => i < |removed| && Some(Own(removed[i])) !in existing
  }

  lemma SourcesLast(columns: set<Column>, all: seq<Item>, n: nat)
    requires 0 < n <= |all|
    ensures Without(columns, all[..n])
         == Without(columns, all[..n - 1]) + if SourceStays(all, columns)(n - 1) then [all[n - 1]] else []
  {
    assert all[..n][..n - 1] == all[..n - 1];
  }

  lemma {:induction false} SourcesLeft(columns: set<Column>, all: seq<Item>, n: nat) returns (places: seq<nat>)
    requires n <= |all|
    ensures Picks(SourceStays(all, columns), n, places) && |Without(columns, all[..n])| == |places|
    ensures forall k | 0 <= k < |places| ::
      places[k] in places && Without(columns, all[..n])[k] == all[places[k]]
  {
    places := [];
    if n > 0 {
      places := SourcesLeft(columns, all, n - 1);
      SourcesLast(columns, all, n);
      places := PicksNext(SourceStays(all, columns), n - 1, places);
    }
  }

  lemma {:induction false} FiltersLeft(columns: set<Column>, all: seq<(Name, Value)>, n: nat) returns (places: seq<nat>)
    requires n <= |all|
    ensures Picks(FilterStays(all, columns), n, places) && |FiltersWithout(columns, all[..n])| == |places|
    ensures forall k | 0 <= k < |places| ::
      places[k] in places && FiltersWithout(columns, all[..n])[k] == all[places[k]]
  {
    places := [];
    if n > 0 {
      places := FiltersLeft(columns, all, n - 1);
      assert all[..n][..n - 1] == all[..n - 1];
      places := PicksNext(FilterStays(all, columns), n - 1, places);
    }
  }

  lemma {:induction false} NoticesGiven(existing: seq<Option<Name>>, all: seq<Column>, n: nat)
    returns (places: seq<nat>)
    requires n <= |all|
    ensures Picks(NoticeIsNew(existing, all), n, places) && |Notices(existing, all[..n])| == |places|
    ensures forall k | 0 <= k < |places| ::
      places[k] in places && Notices(existing, all[..n])[k] == Some(Own(all[places[k]]))
  {
    places := [];
    if n > 0 {
      places := NoticesGiven(existing, all, n - 1);
      assert all[..n][..n - 1] == all[..n - 1];
      places := PicksNext(NoticeIsNew(existing, all), n - 1, places);
    }
  }

  /** A source names this column. */
  predicate Sourced(d: Design, c: Column) {
    exists i :: 0 <= i < |d.sources| && d.sources[i].Item? && d.sources[i].column == Some(Own(c))
  }

  lemma SourcedNames(d: Design, c: Column)
    ensures Sourced(d, c) <==> c in OwnColumns(PrivacySelection.Names(d.sources))
  {
    if Own(c) in PrivacySelection.Names(d.sources) {
      var i :| 0 <= i < |d.sources| && d.sources[i].Item? && d.sources[i].column.Some?
        && d.sources[i].column.value == Own(c);
      assert d.sources[i].column == Some(Own(c));
    }
  }

  /** Two different of these attributes are selected, and one of these identifiers besides. */
  ghost predicate Combines(d: Design, attributes: set<Column>, identifiers: set<Column>) {
    && (exists a, b :: a != b && a in attributes && b in attributes && Sourced(d, a) && Sourced(d, b))
    && exists c :: c in identifiers && Sourced(d, c)
  }

  /** Two person attributes are selected together with a row identifier. */
  ghost predicate Exposes(d: Design) { Combines(d, PERSON_ATTRIBUTES, ROW_IDENTIFIERS) }

  lemma {:induction false} TwoMembers<T>(s: set<T>)
    ensures |s| >= 2 <==> exists a, b :: a in s && b in s && a != b
  {
    if |s| >= 2 {
      var a :| a in s;
      assert |s - {a}| >= 1;
      var b :| b in s - {a};
    }
    if a, b :| a in s && b in s && a != b { assert {a, b} <= s && |s| == |s - {a, b}| + 2; }
  }

  lemma TwoSelected(d: Design, own: set<Column>, all: set<Column>)
    requires forall c :: c in own <==> Sourced(d, c)
    ensures |own * all| >= 2 <==> exists a, b :: a != b && a in all && b in all && Sourced(d, a) && Sourced(d, b)
  {
    TwoMembers(own * all);
    if |own * all| >= 2 {
      var a, b :| a in own * all && b in own * all && a != b;
      assert a in all && b in all && Sourced(d, a) && Sourced(d, b);
    }
    if a, b :| a != b && a in all && b in all && Sourced(d, a) && Sourced(d, b) {
      assert a in own * all && b in own * all;
    }
  }

  lemma OneSelected(d: Design, own: set<Column>, all: set<Column>)
    requires forall c :: c in own <==> Sourced(d, c)
    ensures own * all != {} <==> exists c :: c in all && Sourced(d, c)
  {
    if own * all != {} {
      var c :| c in own * all;
      assert c in all && Sourced(d, c);
    }
    if c :| c in all && Sourced(d, c) { assert c in own * all; }
  }

  lemma CombinesMeans(d: Design, own: set<Column>, attributes: set<Column>, identifiers: set<Column>)
    requires own == OwnColumns(PrivacySelection.Names(d.sources))
    ensures Combines(d, attributes, identifiers) <==> |own * attributes| >= 2 && own * identifiers != {}
  {
    forall c ensures c in own <==> Sourced(d, c) { SourcedNames(d, c); }
    TwoSelected(d, own, attributes);
    OneSelected(d, own, identifiers);
  }

  lemma ConflictMeans(d: Design)
    ensures Conflict(d) <==> Exposes(d)
  {
    CombinesMeans(d, OwnColumns(PrivacySelection.Names(d.sources)), PERSON_ATTRIBUTES, ROW_IDENTIFIERS);
  }

  /** The members of a set that are selected. */
  ghost predicate AreSelected(d: Design, all: set<Column>, columns: set<Column>) {
    forall c :: c in columns <==> c in all && Sourced(d, c)
  }

  lemma SelectedMeans(d: Design, own: set<Column>, all: set<Column>)
    requires own == OwnColumns(PrivacySelection.Names(d.sources))
    ensures AreSelected(d, all, own * all)
  {
    forall c ensures c in own * all <==> c in all && Sourced(d, c) { SourcedNames(d, c); }
  }

  /** A design without the items that name these columns, and with a notice for each that had none. */
  ghost predicate Removed(
    d: Design, r: Design, columns: set<Column>, order: seq<Column>,
    sources: seq<nat>, filters: seq<nat>, notices: seq<nat>)
  {
    && r.tables == d.tables && Taken(d.sources, SourceStays(d.sources, columns), sources, r.sources)
    && d.filters.Some? == r.filters.Some?
    && (d.filters.None? || Taken(d.filters.value, FilterStays(d.filters.value, columns), filters, r.filters.value))
    && r.terms.Some?
    && Noticed(if d.terms.Some? then d.terms.value else [], order, notices, r.terms.value)
  }

  /**
   Only an exposing design is changed: the sources and filters naming an identifier go, the others
   stay in their order, and a notice is added for each identifier that has none.
   */
  lemma PrivateMeans(sorted: set<Column> -> seq<Column>, d: Design)
    returns (columns: set<Column>, sources: seq<nat>, filters: seq<nat>, notices: seq<nat>)
    ensures !Exposes(d) ==> Private(sorted, d) == d
    ensures Exposes(d) ==> AreSelected(d, ROW_IDENTIFIERS, columns)
    ensures Exposes(d) ==> Removed(d, Private(sorted, d), columns, sorted(columns), sources, filters, notices)
  {
    ConflictMeans(d);
    columns := Identifiers(d);
    SelectedMeans(d, OwnColumns(PrivacySelection.Names(d.sources)), ROW_IDENTIFIERS);
    sources, filters, notices := RemovedParts(d, columns, sorted(columns));
  }

  lemma RemovedParts(d: Design, columns: set<Column>, order: seq<Column>)
    returns (sources: seq<nat>, filters: seq<nat>, notices: seq<nat>)
    ensures var terms := if d.terms.Some? then d.terms.value else [];
      Removed(d,
        Design(d.tables, Without(columns, d.sources),
               if d.filters.Some? then Some(FiltersWithout(columns, d.filters.value)) else None,
               Some(terms + Notices(terms, order))),
        columns, order, sources, filters, notices)
  {
    sources := SourcesTaken(columns, d.sources);
    filters := [];
    if d.filters.Some? { filters := FiltersTaken(columns, d.filters.value); }
    notices := NoticesTaken(if d.terms.Some? then d.terms.value else [], order);
  }

  lemma SourcesTaken(columns: set<Column>, all: seq<Item>) returns (places: seq<nat>)
    ensures Taken(all, SourceStays(all, columns), places, Without(columns, all))
  {
    places := SourcesLeft(columns, all, |all|);
    assert all[..|all|] == all;
  }

  lemma FiltersTaken(columns: set<Column>, all: seq<(Name, Value)>) returns (places: seq<nat>)
    ensures Taken(all, FilterStays(all, columns), places, FiltersWithout(columns, all))
  {
    places := FiltersLeft(columns, all, |all|);
    assert all[..|all|] == all;
  }

  lemma NoticesTaken(terms: seq<Option<Name>>, order: seq<Column>) returns (places: seq<nat>)
    ensures Noticed(terms, order, places, terms + Notices(terms, order))
  {
    places := NoticesGiven(terms, order, |order|);
    assert order[..|order|] == order;
  }

  /** The terms before, and then one for each of the removed columns that is new. */
  ghost predicate Noticed(terms: seq<Option<Name>>, removed: seq<Column>, places: seq<nat>, after: seq<Option<Name>>) {
    && Picks(NoticeIsNew(terms, removed), |removed|, places)
    && |after| == |terms| + |places| && after[..|terms|] == terms
    && forall k | 0 <= k < |places| :: places[k] in places && after[|terms| + k] == Some(Own(removed[places[k]]))
  }

  // ----- columns that are never queried -----

  /** What identifies a person, a card, a shop or a device on its own. */
  const HIDDEN := {PostalCode, CardNumberMasked, IpAddress, MerchantName, BusinessRegistrationNumber, MerchantOpenMonth}

  lemma HiddenIn(d: Dataset, c: Column)
    requires c == PostalCode || c == CardNumberMasked || c == IpAddress || c == MerchantName
          || c == BusinessRegistrationNumber || c == MerchantOpenMonth
    ensures c !in AllowedColumns(d)
  {}

  lemma NeverAllowed(datasets: seq<Dataset>, c: Column)
    requires c in HIDDEN
    ensures c !in Allowed(datasets)
  {
    forall d | d in datasets ensures c !in AllowedColumns(d) { HiddenIn(d, c); }
  }

  /** An accepted plan neither returns such a column nor filters on one. */
  lemma NeverQueried(lower: Value -> string, s: Selection, c: Column)
    requires Build(lower, s).Accepted? && c in HIDDEN
    ensures c !in Build(lower, s).value.columns
    ensures forall f | f in Build(lower, s).value.filters :: f.column != c
  {
    BuiltIsWellFormed(lower, s);
    NeverAllowed(Build(lower, s).value.datasets, c);
  }

  // ----- selections that name no columns -----

  lemma DefaultAttribute(d: Dataset, c: Column)
    requires c in DefaultColumns(d) && c in PERSON_ATTRIBUTES
    ensures c == AgeBand
  {}

  /** A name that is a person attribute is the age band. */
  predicate OnlyAgeBand(n: Name) { n.Own? && (n.column in PERSON_ATTRIBUTES ==> n.column == AgeBand) }

  lemma {:induction false} OwnDefaults(d: Dataset, columns: seq<Column>, allowed: set<Column>)
    requires forall c | c in columns :: c in DefaultColumns(d)
    ensures forall n | n in OwnAllowed(columns, allowed) :: OnlyAgeBand(n)
    decreases |columns|
  {
    if columns != [] {
      OwnDefaults(d, columns[1..], allowed);
      if columns[0] in PERSON_ATTRIBUTES { DefaultAttribute(d, columns[0]); }
    }
  }

  lemma {:induction false} DefaultNames(datasets: seq<Dataset>, allowed: set<Column>)
    ensures forall n | n in Defaults(datasets, allowed) :: OnlyAgeBand(n)
  {
    if datasets != [] {
      DefaultNames(datasets[..|datasets| - 1], allowed);
      OwnDefaults(datasets[|datasets| - 1], DefaultColumns(datasets[|datasets| - 1]), allowed);
    }
  }

  lemma OneAttribute(names: seq<Name>)
    requires (forall n | n in names :: n.Own?) && forall n | n in names :: OnlyAgeBand(n)
    ensures !IdentifierConflict(Columns(names))
  {
    var members := Members(Columns(names), PERSON_ATTRIBUTES);
    forall c | c in members ensures c == AgeBand {
      var k :| 0 <= k < |names| && Columns(names)[k] == c;
      assert names[k] in names && OnlyAgeBand(names[k]);
    }
    if |members| >= 2 {
      TwoMembers(members);
    }
  }

  /** A selection that names no columns never trips the identifier rule. */
  lemma DefaultsNeverConflict(lower: Value -> string, s: Selection)
    requires s.columns.None?
    ensures Build(lower, s) != Refused(IdentifierRule)
  {
    if s.limit.Some? && forall t | t in s.tables :: t.Some? {
      var datasets := Distinct(Present(s.tables));
      var allowed := Allowed(datasets);
      DefaultNames(datasets, allowed);
      ResolvedOwn(Defaults(datasets, allowed), allowed);
      FilterErrors(lower, allowed, s.filters);
      OneAttribute(Distinct(Defaults(datasets, allowed)));
    }
  }
}
