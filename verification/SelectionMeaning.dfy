/**
 What a query plan takes over from a selection, and what completing the source columns adds: the
 datasets, columns, filters and limit of the plan, each from its own part of the selection.
 */
module SelectionMeaning {
  import opened Values
  import opened QueryRegistry
  import opened SelectionQuery
  import P = PrivacySelection
  import PrivacyMeaning

  // ----- first occurrences -----

  /** Each element is taken from its first place, and the places are in order. */
  ghost predicate FirstPlaces<T>(xs: seq<T>, r: seq<T>, places: seq<nat>) {
    && |places| == |r|
    && (forall k | 0 <= k < |r| :: places[k] < |xs| && xs[places[k]] == r[k] && r[k] !in xs[..places[k]])
    && (forall k, m | 0 <= k < m < |r| :: places[k] < places[m])
  }

  lemma {:induction false} DistinctPlaces<T(!new)>(xs: seq<T>) returns (places: seq<nat>)
    ensures FirstPlaces(xs, Distinct(xs), places)
  {
    places := [];
    if xs != [] {
      var n := |xs| - 1;
      places := DistinctPlaces(xs[..n]);
      assert xs == xs[..n] + [xs[n]];
      assert forall k | 0 <= k < |places| :: xs[..places[k]] == xs[..n][..places[k]];
      if xs[n] !in xs[..n] { places := places + [n]; }
    }
  }

  // ----- names -----

  /** The column a name stands for where some columns are allowed, if it stands for any. */
  function ColumnFor(name: Name, allowed: set<Column>): Option<Column> {
    match name
    case Own(c) => Some(c)
    case Text(_) => None
    case Word(w) =>
      if w == RegionWord then
        if MerchantRegion !in allowed && ResidentRegion in allowed then Some(ResidentRegion) else Some(MerchantRegion)
      else if w == PaymentWord || w == TradeWord then
        if TransactionAmount !in allowed && KrwConvertedAmount in allowed then Some(KrwConvertedAmount)
        else Some(TransactionAmount)
      else Some(AliasOf(w))
  }

  /** The words that stand for a column. */
  function WordsFor(c: Column): set<AliasWord> {
    match c
    case Gender => {GenderWord}
    case AgeBand => {AgeWord, AgeBandWord, YearsWord}
    case ResidentRegion => {ResidenceWord}
    case MerchantRegion => {MerchantRegionWord, RegionWord}
    case MccCode => {BusinessWord, BusinessCodeWord}
    case TransactionAmount => {PaymentWord, TradeWord}
    case ApprovalStatus => {ApprovalWord}
    case MerchantCountryCode => {CountryWord}
    case TransactionHourBand => {HourBandWord, TimeWord}
    case TransactionWeekday => {WeekdayWord}
    case _ => {}
  }

  lemma AliasMeans(w: AliasWord, c: Column)
    ensures AliasOf(w) == c <==> w in WordsFor(c)
  {}

  lemma FirstAllowedOwn(candidates: seq<Name>, allowed: set<Column>)
    requires candidates != []
    ensures FirstAllowed(candidates, allowed)
         == if candidates[0].Own? && candidates[0].column in allowed then [candidates[0]]
            else FirstAllowed(candidates[1..], allowed)
  {}

  lemma TwoCandidates(a: Name, b: Name, allowed: set<Column>)
    ensures FirstAllowed([a, b], allowed) ==
      if a.Own? && a.column in allowed then [a] else if b.Own? && b.column in allowed then [b] else []
  {
    FirstAllowedOwn([a, b], allowed);
    assert [a, b][1..] == [b];
    FirstAllowedOwn([b], allowed);
    assert [b][1..] == [];
  }

  lemma ThreeCandidates(a: Name, b: Name, c: Name, allowed: set<Column>)
    requires c.Text?
    ensures FirstAllowed([a, b, c], allowed) ==
      if a.Own? && a.column in allowed then [a] else if b.Own? && b.column in allowed then [b] else []
  {
    FirstAllowedOwn([a, b, c], allowed);
    assert [a, b, c][1..] == [b, c];
    TwoCandidates(b, c, allowed);
  }

  lemma ResolveMeans(name: Name, allowed: set<Column>)
    ensures Resolve(name, allowed)
         == if ColumnFor(name, allowed).Some? then Own(ColumnFor(name, allowed).value) else name
  {
    if name == Word(RegionWord) {
      ThreeCandidates(Own(MerchantRegion), Own(ResidentRegion), Text("region"), allowed);
    } else if name == Word(PaymentWord) || name == Word(TradeWord) {
      ThreeCandidates(Own(TransactionAmount), Own(KrwConvertedAmount), Text("amount"), allowed);
    } else {
      TwoCandidates(Canonical(name), name, allowed);
    }
  }

  // ----- filters -----

  function OperatorWord(operator: Operator): string {
    match operator
    case Eq => "eq"
    case In => "in"
    case Gte => "gte"
    case Lte => "lte"
    case Between => "between"
    case StartsWith => "starts_with"
  }

  /** An object names its operator, `eq` by default; a list is an `in`, anything else an `eq`. */
  predicate FilterRead(lower: Value -> string, raw: Value, f: FilterCondition) {
    match raw
    case Dict(m) =>
      && OperatorWord(f.operator) == lower(if "operator" in m then m["operator"] else Str("eq"))
      && f.value == (if "value" in m then m["value"] else Null)
    case List(_) => f.operator == In && f.value == raw
    case _ => f.operator == Eq && f.value == raw
  }

  /** A condition taken from a filter: on the column its key stands for, with its operator and value. */
  predicate Taken(lower: Value -> string, allowed: set<Column>, raw: (Name, Value), f: FilterCondition) {
    ColumnFor(raw.0, allowed) == Some(f.column) && FilterRead(lower, raw.1, f)
  }

  lemma FilterMeans(lower: Value -> string, allowed: set<Column>, raw: (Name, Value))
    requires FilterOf(lower, allowed, raw).Accepted?
    ensures Taken(lower, allowed, raw, FilterOf(lower, allowed, raw).value)
  {
    ResolveMeans(raw.0, allowed);
  }

  lemma FiltersLast(lower: Value -> string, allowed: set<Column>, raw: seq<(Name, Value)>, n: nat)
    requires |raw| == n + 1 && FiltersOf(lower, allowed, raw).Accepted?
    ensures FiltersOf(lower, allowed, raw[..n]).Accepted? && FilterOf(lower, allowed, raw[n]).Accepted?
    ensures FiltersOf(lower, allowed, raw).value
         == FiltersOf(lower, allowed, raw[..n]).value + [FilterOf(lower, allowed, raw[n]).value]
  {}

  predicate AllTaken(
    lower: Value -> string, allowed: set<Column>, raw: seq<(Name, Value)>, fs: seq<FilterCondition>)
  {
    |fs| == |raw| && forall i | 0 <= i < |raw| :: Taken(lower, allowed, raw[i], fs[i])
  }

  lemma TakenNext(
    lower: Value -> string, allowed: set<Column>, raw: seq<(Name, Value)>, n: nat, fs: seq<FilterCondition>,
    f: FilterCondition)
    requires |raw| == n + 1 && AllTaken(lower, allowed, raw[..n], fs) && Taken(lower, allowed, raw[n], f)
    ensures AllTaken(lower, allowed, raw, fs + [f])
  {
    assert forall i | 0 <= i < n :: raw[..n][i] == raw[i];
  }

  lemma {:induction false} FiltersMean(lower: Value -> string, allowed: set<Column>, raw: seq<(Name, Value)>)
    requires FiltersOf(lower, allowed, raw).Accepted?
    ensures AllTaken(lower, allowed, raw, FiltersOf(lower, allowed, raw).value)
  {
    if raw != [] {
      var n := |raw| - 1;
      FiltersLast(lower, allowed, raw, n);
      FiltersMean(lower, allowed, raw[..n]);
      FilterMeans(lower, allowed, raw[n]);
      var before, f := FiltersOf(lower, allowed, raw[..n]).value, FilterOf(lower, allowed, raw[n]).value;
      TakenNext(lower, allowed, raw, n, before, f);
    }
  }

  // ----- the plan -----

  /** The columns a selection asks for: its own, or the allowed defaults of its datasets in turn. */
  function AskedFor(s: Selection, datasets: seq<Dataset>): seq<Name> {
    if s.columns.Some? then s.columns.value else Usual(datasets, Allowed(datasets))
  }

  function Usual(datasets: seq<Dataset>, allowed: set<Column>): seq<Name> {
    if datasets == [] then []
    else OwnNames(DefaultColumns(datasets[0]), allowed) + Usual(datasets[1..], allowed)
  }

  function OwnNames(columns: seq<Column>, allowed: set<Column>): seq<Name> {
    if columns == [] then []
    else (if columns[0] in allowed then [Own(columns[0])] else []) + OwnNames(columns[1..], allowed)
  }

  lemma {:induction false} OwnNamesSame(columns: seq<Column>, allowed: set<Column>)
    ensures OwnNames(columns, allowed) == OwnAllowed(columns, allowed)
  {
    if columns != [] { OwnNamesSame(columns[1..], allowed); }
  }

  /** The last dataset of both lists adds the same names to both. */
  lemma SameLast(one: seq<Dataset>, two: seq<Dataset>, allowed: set<Column>) returns (last: seq<Name>)
    requires one != [] && two != [] && one[|one| - 1] == two[|two| - 1]
    ensures Defaults(one, allowed) == Defaults(one[..|one| - 1], allowed) + last
    ensures Defaults(two, allowed) == Defaults(two[..|two| - 1], allowed) + last
  {
    last := OwnAllowed(DefaultColumns(one[|one| - 1]), allowed);
  }

  lemma Combine<T>(whole: seq<T>, front: seq<T>, own: seq<T>, middle: seq<T>, last: seq<T>, tail: seq<T>)
    requires whole == front + last && front == own + middle && tail == middle + last
    ensures whole == own + tail
  {}

  lemma {:induction false} UsualFront(datasets: seq<Dataset>, allowed: set<Column>)
    requires datasets != []
    ensures Defaults(datasets, allowed) == Defaults(datasets[..1], allowed) + Defaults(datasets[1..], allowed)
  {
    if |datasets| == 1 {
      assert datasets[..1] == datasets && datasets[1..] == [];
    } else {
      UsualFront(datasets[..|datasets| - 1], allowed);
      FrontLonger(datasets, datasets[..|datasets| - 1], datasets[1..], allowed);
    }
  }

  lemma FrontLonger(datasets: seq<Dataset>, front: seq<Dataset>, tail: seq<Dataset>, allowed: set<Column>)
    requires |datasets| > 1 && front == datasets[..|datasets| - 1] && tail == datasets[1..]
    requires Defaults(front, allowed) == Defaults(front[..1], allowed) + Defaults(front[1..], allowed)
    ensures Defaults(datasets, allowed) == Defaults(datasets[..1], allowed) + Defaults(tail, allowed)
  {
    var last := SameLast(datasets, tail, allowed);
    assert front[1..] == tail[..|tail| - 1] && front[..1] == datasets[..1];
    Combine(Defaults(datasets, allowed), Defaults(front, allowed), Defaults(datasets[..1], allowed),
      Defaults(front[1..], allowed), last, Defaults(tail, allowed));
  }

  lemma OneUsual(datasets: seq<Dataset>, allowed: set<Column>)
    requires |datasets| == 1
    ensures Defaults(datasets, allowed) == OwnNames(DefaultColumns(datasets[0]), allowed)
  {
    OwnNamesSame(DefaultColumns(datasets[0]), allowed);
    assert Defaults(datasets[..0], allowed) == [];
  }

  lemma {:induction false} UsualSame(datasets: seq<Dataset>, allowed: set<Column>)
    ensures Usual(datasets, allowed) == Defaults(datasets, allowed)
  {
    if datasets != [] {
      UsualFront(datasets, allowed);
      UsualSame(datasets[1..], allowed);
      OneUsual(datasets[..1], allowed);
    }
  }

  /** The names that stand for columns. */
  function Stands(names: seq<Name>, allowed: set<Column>): seq<Name> {
    seq(|names|, i requires 0 <= i < |names| =>
      if ColumnFor(names[i], allowed).Some? then Own(ColumnFor(names[i], allowed).value) else names[i])
  }

  lemma StandsSame(names: seq<Name>, allowed: set<Column>)
    ensures Stands(names, allowed) == Resolved(names, allowed)
  {
    forall i | 0 <= i < |names| ensures Stands(names, allowed)[i] == Resolved(names, allowed)[i] {
      ResolveMeans(names[i], allowed);
    }
  }

  /** The plan's columns are those the selection asks for, once each, in the order they are first asked for. */
  ghost predicate ColumnsTaken(names: seq<Name>, columns: seq<Column>, places: seq<nat>) {
    && |places| == |columns|
    && (forall k | 0 <= k < |columns| :: places[k] < |names| && names[places[k]] == Own(columns[k]))
    && (forall k | 0 <= k < |columns| :: Own(columns[k]) !in names[..places[k]])
    && (forall k, m | 0 <= k < m < |columns| :: places[k] < places[m])
    && (forall n | n in names :: n.Own? && n.column in columns)
  }

  lemma DatasetsTaken(s: Selection, plan: SelectionPlan)
    requires (forall t | t in s.tables :: t.Some?) && plan.datasets == Distinct(Present(s.tables))
    ensures forall d :: d in plan.datasets <==> Some(d) in s.tables
  {
    var present := Present(s.tables);
    forall d ensures d in present <==> Some(d) in s.tables {
      if d in present {
        var i :| 0 <= i < |present| && present[i] == d;
        assert s.tables[i] in s.tables;
      }
      if Some(d) in s.tables {
        var i :| 0 <= i < |s.tables| && s.tables[i] == Some(d);
        assert present[i] == d;
      }
    }
  }

  lemma ColumnsMean(names: seq<Name>, distinct: seq<Name>, places: seq<nat>)
    requires distinct == Distinct(names) && FirstPlaces(names, distinct, places) && forall n | n in distinct :: n.Own?
    ensures ColumnsTaken(names, Columns(distinct), places)
  {
    var columns := Columns(distinct);
    forall k | 0 <= k < |columns| ensures Own(columns[k]) == distinct[k] { assert distinct[k] in distinct; }
    forall n | n in names ensures n.Own? && n.column in columns {
      assert n in distinct;
      var k :| 0 <= k < |distinct| && distinct[k] == n;
      assert columns[k] == n.column;
    }
  }

  /**
   An accepted plan queries exactly the selected datasets, for the columns asked for, with one filter
   for each filter given, on the column its key stands for, and with the limit given.
   */
  lemma BuiltMeans(lower: Value -> string, s: Selection) returns (places: seq<nat>)
    requires Build(lower, s).Accepted?
    ensures var plan := Build(lower, s).value;
      && s.limit == Some(plan.limit)
      && (forall d :: d in plan.datasets <==> Some(d) in s.tables)
      && (forall i, j | 0 <= i < j < |plan.datasets| :: plan.datasets[i] != plan.datasets[j])
      && ColumnsTaken(Stands(AskedFor(s, plan.datasets), Allowed(plan.datasets)), plan.columns, places)
      && |plan.filters| == |s.filters|
      && forall i | 0 <= i < |s.filters| ::
           Taken(lower, Allowed(plan.datasets), s.filters[i], plan.filters[i])
  {
    var plan := Build(lower, s).value;
    var allowed := Allowed(plan.datasets);
    DatasetsTaken(s, plan);
    UsualSame(plan.datasets, allowed);
    StandsSame(AskedFor(s, plan.datasets), allowed);
    var names := Stands(AskedFor(s, plan.datasets), allowed);
    places := DistinctPlaces(names);
    ColumnsMean(names, Distinct(names), places);
    FiltersMean(lower, allowed, s.filters);
  }

  // ----- when a plan is accepted -----

  /** A filter says a known operator and a value of the form it takes. */
  predicate Readable(lower: Value -> string, raw: Value) {
    var word := match raw
      case Dict(m) => lower(if "operator" in m then m["operator"] else Str("eq"))
      case List(_) => "in"
      case _ => "eq";
    var value := if raw.Dict? then Get(raw.entries, "value") else raw;
    || word == "eq" || word == "gte" || word == "lte"
    || (word == "in" && value.List?)
    || (word == "between" && value.List? && |value.items| == 2)
    || (word == "starts_with" && value.Str?)
  }

  predicate Usable(lower: Value -> string, allowed: set<Column>, raw: (Name, Value)) {
    ColumnFor(raw.0, allowed).Some? && ColumnFor(raw.0, allowed).value in allowed && Readable(lower, raw.1)
  }

  lemma FilterUsable(lower: Value -> string, allowed: set<Column>, raw: (Name, Value))
    ensures FilterOf(lower, allowed, raw).Accepted? <==> Usable(lower, allowed, raw)
  {
    ResolveMeans(raw.0, allowed);
  }

  lemma {:induction false} FiltersUsable(lower: Value -> string, allowed: set<Column>, raw: seq<(Name, Value)>)
    ensures FiltersOf(lower, allowed, raw).Accepted? <==> forall f | f in raw :: Usable(lower, allowed, f)
  {
    if raw != [] {
      var n := |raw| - 1;
      FiltersUsable(lower, allowed, raw[..n]);
      FilterUsable(lower, allowed, raw[n]);
      assert raw == raw[..n] + [raw[n]];
    }
  }

  /** Two different of these attributes are among the names, and one of these identifiers. */
  ghost predicate Mixes(names: seq<Name>, attributes: set<Column>, identifiers: set<Column>) {
    && (exists a, b :: a != b && a in attributes && b in attributes && Own(a) in names && Own(b) in names)
    && exists c :: c in identifiers && Own(c) in names
  }

  lemma MembersMean(names: seq<Name>, columns: seq<Column>, kind: set<Column>)
    requires forall c :: c in columns <==> Own(c) in names
    ensures |Members(columns, kind)| >= 2 <==>
      exists a, b :: a != b && a in kind && b in kind && Own(a) in names && Own(b) in names
    ensures Members(columns, kind) != {} <==> exists c :: c in kind && Own(c) in names
  {
    var members := Members(columns, kind);
    PrivacyMeaning.TwoMembers(members);
    if |members| >= 2 {
      var a, b :| a in members && b in members && a != b;
      assert Own(a) in names && Own(b) in names;
    }
    if a, b :| a != b && a in kind && b in kind && Own(a) in names && Own(b) in names {
      assert a in members && b in members;
    }
    if c :| c in kind && Own(c) in names { assert c in members; }
    if members != {} {
      var c :| c in members;
      assert Own(c) in names;
    }
  }

  lemma ConflictMeans(names: seq<Name>, distinct: seq<Name>)
    requires (forall n | n in distinct :: n.Own?) && forall n :: n in distinct <==> n in names
    ensures IdentifierConflict(Columns(distinct)) <==> Mixes(names, PERSON_ATTRIBUTES, ROW_IDENTIFIERS)
  {
    var columns := Columns(distinct);
    forall c ensures c in columns <==> Own(c) in names {
      if c in columns {
        var k :| 0 <= k < |columns| && columns[k] == c;
        assert distinct[k] in distinct && distinct[k] == Own(c);
      }
      if Own(c) in distinct {
        var k :| 0 <= k < |distinct| && distinct[k] == Own(c);
        assert columns[k] == c;
      }
    }
    MembersMean(names, columns, PERSON_ATTRIBUTES);
    MembersMean(names, columns, ROW_IDENTIFIERS);
  }

  /** Only known datasets, and a limit in range. */
  predicate Addressed(s: Selection) {
    s.tables != [] && (forall t | t in s.tables :: t.Some?) && s.limit.Some? && 1 <= s.limit.value <= 50000
  }

  /** Columns there are, all allowed; filters that can be used; and no identifiers beside person attributes. */
  ghost predicate Admissible(lower: Value -> string, s: Selection, allowed: set<Column>, names: seq<Name>) {
    && names != [] && (forall n | n in names :: n.Own? && n.column in allowed)
    && (forall f | f in s.filters :: Usable(lower, allowed, f))
    && !Mixes(names, PERSON_ATTRIBUTES, ROW_IDENTIFIERS)
  }

  lemma PlanForIff(lower: Value -> string, s: Selection, datasets: seq<Dataset>, names: seq<Name>)
    requires s.limit.Some?
    ensures PlanFor(lower, s, datasets, Distinct(names)).Accepted?
        <==> Admissible(lower, s, Allowed(datasets), names)
  {
    var distinct := Distinct(names);
    FiltersUsable(lower, Allowed(datasets), s.filters);
    if forall n | n in distinct :: n.Own? { ConflictMeans(names, distinct); }
    if names != [] { assert names[0] in distinct; }
  }

  /** The names a properly addressed selection asks for, each standing for a column where it can. */
  function Asked(s: Selection): seq<Name>
    requires Addressed(s)
  {
    var datasets := Distinct(Present(s.tables));
    Stands(AskedFor(s, datasets), Allowed(datasets))
  }

  lemma NamesAsked(s: Selection, datasets: seq<Dataset>)
    ensures Resolved(RawColumns(s, datasets), Allowed(datasets)) == Stands(AskedFor(s, datasets), Allowed(datasets))
  {
    UsualSame(datasets, Allowed(datasets));
    StandsSame(AskedFor(s, datasets), Allowed(datasets));
  }

  lemma BuildAddressed(lower: Value -> string, s: Selection)
    ensures !Addressed(s) ==> Build(lower, s).Refused?
    ensures Addressed(s) ==> var datasets := Distinct(Present(s.tables));
      Build(lower, s) == PlanFor(lower, s, datasets, Distinct(Resolved(RawColumns(s, datasets), Allowed(datasets))))
  {}

  /** A plan is accepted exactly when the selection is addressed properly and admissible. */
  lemma BuiltIff(lower: Value -> string, s: Selection)
    ensures Build(lower, s).Accepted? <==>
      Addressed(s) && Admissible(lower, s, Allowed(Distinct(Present(s.tables))), Asked(s))
  {
    BuildAddressed(lower, s);
    if Addressed(s) {
      var datasets := Distinct(Present(s.tables));
      NamesAsked(s, datasets);
      PlanForIff(lower, s, datasets, Asked(s));
    }
  }

  // ----- completing the source columns -----

  /** The metadata entry offers the name in one of the selected tables, or in any when none is selected. */
  predicate Offers(m: P.MetadataColumn, tables: set<string>, name: Name) {
    m.column == name && (tables == {} || m.dataset in tables)
  }

  predicate OnlyOffer(metadata: seq<P.MetadataColumn>, tables: set<string>, name: Name, i: nat) {
    && i < |metadata| && Offers(metadata[i], tables, name)
    && forall j | 0 <= j < |metadata| && Offers(metadata[j], tables, name) :: j == i
  }

  lemma {:induction false} MatchesNone(metadata: seq<P.MetadataColumn>, tables: set<string>, name: Name)
    ensures P.Matches(metadata, tables, name) == [] <==>
      forall j | 0 <= j < |metadata| :: !Offers(metadata[j], tables, name)
  {
    if metadata != [] {
      var n := |metadata| - 1;
      MatchesNone(metadata[..n], tables, name);
      assert forall j | 0 <= j < n :: metadata[..n][j] == metadata[j];
    }
  }

  lemma MatchesLast(metadata: seq<P.MetadataColumn>, tables: set<string>, name: Name, n: nat)
    requires |metadata| == n + 1
    ensures P.Matches(metadata, tables, name)
         == P.Matches(metadata[..n], tables, name) + if Offers(metadata[n], tables, name) then [metadata[n]] else []
  {}

  lemma OnlyOfferKept(metadata: seq<P.MetadataColumn>, tables: set<string>, name: Name, n: nat, i: nat)
    requires |metadata| == n + 1 && !Offers(metadata[n], tables, name)
    ensures OnlyOffer(metadata, tables, name, i) <==> OnlyOffer(metadata[..n], tables, name, i)
  {
    assert forall j | 0 <= j < n :: metadata[..n][j] == metadata[j];
  }

  /** There is one match exactly when one entry alone offers the name. */
  lemma {:induction false} MatchesOne(metadata: seq<P.MetadataColumn>, tables: set<string>, name: Name)
    ensures |P.Matches(metadata, tables, name)| == 1 ==>
      exists i: nat :: OnlyOffer(metadata, tables, name, i) && P.Matches(metadata, tables, name) == [metadata[i]]
    ensures (exists i: nat :: OnlyOffer(metadata, tables, name, i)) ==> |P.Matches(metadata, tables, name)| == 1
  {
    if metadata != [] {
      var n := |metadata| - 1;
      MatchesLast(metadata, tables, name, n);
      if Offers(metadata[n], tables, name) {
        LastOffer(metadata, tables, name, n);
      } else {
        MatchesOne(metadata[..n], tables, name);
        if i: nat :| OnlyOffer(metadata[..n], tables, name, i) { OnlyOfferKept(metadata, tables, name, n, i); }
        if i: nat :| OnlyOffer(metadata, tables, name, i) { OnlyOfferKept(metadata, tables, name, n, i); }
      }
    }
  }

  lemma LastOffer(metadata: seq<P.MetadataColumn>, tables: set<string>, name: Name, n: nat)
    requires |metadata| == n + 1 && Offers(metadata[n], tables, name)
    ensures P.Matches(metadata[..n], tables, name) == [] ==> OnlyOffer(metadata, tables, name, n)
    ensures (exists i: nat :: OnlyOffer(metadata, tables, name, i)) ==> P.Matches(metadata[..n], tables, name) == []
  {
    MatchesNone(metadata[..n], tables, name);
    assert forall j | 0 <= j < n :: metadata[..n][j] == metadata[j];
  }

  /** Every source column that completing adds is a filter key with its one dataset. */
  lemma {:induction false} CompletedItems(
    metadata: seq<P.MetadataColumn>, tables: set<string>, items: seq<P.Item>, filters: seq<(Name, Value)>, k: nat)
    requires |items| <= k < |P.Completed(metadata, tables, items, filters)|
    ensures var item := P.Completed(metadata, tables, items, filters)[k];
      && item.Item? && item.column.Some? && item.column.value in P.Keys(filters)
      && exists i: nat :: OnlyOffer(metadata, tables, item.column.value, i) && item.dataset == metadata[i].dataset
  {
    var n := |filters| - 1;
    assert filters == filters[..n] + [filters[n]];
    var before := P.Completed(metadata, tables, items, filters[..n]);
    assert P.Keys(filters) == P.Keys(filters[..n]) + {filters[n].0};
    if k < |before| {
      CompletedItems(metadata, tables, items, filters[..n], k);
    } else {
      MatchesOne(metadata, tables, filters[n].0);
    }
  }
}
