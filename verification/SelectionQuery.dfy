/**
 Building a query plan from an agent's selection: which columns and filters it may use, and the
 rule against combining person attributes with row identifiers.
 Follows agent_runtime/query/plan.py.
 */
module SelectionQuery {
  import opened Values
  import opened QueryRegistry

  datatype Operator = Eq | In | Gte | Lte | Between | StartsWith

  datatype FilterCondition = FilterCondition(column: Column, operator: Operator, value: Value)

  datatype SelectionPlan = SelectionPlan(
    datasets: seq<Dataset>, columns: seq<Column>, filters: seq<FilterCondition>, limit: int)

  datatype PolicyError =
    | NoTables | UnknownDataset | BadLimit | BadColumns | ColumnsNotAllowed | NoColumns | FilterNotAllowed | BadFilter
    | IdentifierRule | ColumnUnavailable | NoCustomerKey | Unjoinable | BadFilterValue

  datatype Planned<T> = Accepted(value: T) | Refused(error: PolicyError)

  /**
   A selection as the plan reads it.  A table item is None when it names no dataset; the limit is
   None when it is no integer; `columns` is None when the query has none.
   */
  datatype Selection = Selection(
    tables: seq<Option<Dataset>>, limit: Option<int>, columns: Option<seq<Name>>, filters: seq<(Name, Value)>)

  const MAX_LIMIT := 50000

  function Allowed(datasets: seq<Dataset>): set<Column> { set d, c | d in datasets && c in AllowedColumns(d) :: c }

  /** `str(raw["operator"]).lower()` is a parameter. */
  function OperatorOf(text: string): Option<Operator> {
    if text == "eq" then Some(Eq) else if text == "in" then Some(In) else if text == "gte" then Some(Gte)
    else if text == "lte" then Some(Lte) else if text == "between" then Some(Between)
    else if text == "starts_with" then Some(StartsWith) else None
  }

  /** `_normalize_filter`. */
  function NormalizeFilter(lower: Value -> string, raw: Value): Option<(Operator, Value)> {
    var (operator, value) :=
      if raw.Dict? then
        (OperatorOf(lower(if "operator" in raw.entries then raw.entries["operator"] else Str("eq"))),
          Get(raw.entries, "value"))
      else if raw.List? then (Some(In), raw)
      else (Some(Eq), raw);
    if operator.None? then None
    else if (operator.value.In? || operator.value.Between?) && !value.List? then None
    else if operator.value.Between? && |value.items| != 2 then None
    else if operator.value.StartsWith? && !value.Str? then None
    else Some((operator.value, value))
  }

  function FilterOf(lower: Value -> string, allowed: set<Column>, raw: (Name, Value)): Planned<FilterCondition> {
    var column := Resolve(raw.0, allowed);
    if !column.Own? || column.column !in allowed then Refused(FilterNotAllowed)
    else
      match NormalizeFilter(lower, raw.1)
      case None => Refused(BadFilter)
      case Some(pair) => Accepted(FilterCondition(column.column, pair.0, pair.1))
  }

  /** The filters in order, or the first error. */
  function FiltersOf(
    lower: Value -> string, allowed: set<Column>, raw: seq<(Name, Value)>): Planned<seq<FilterCondition>>
  {
    if raw == [] then Accepted([])
    else
      match FiltersOf(lower, allowed, raw[..|raw| - 1])
      case Refused(e) => Refused(e)
      case Accepted(before) =>
        match FilterOf(lower, allowed, raw[|raw| - 1])
        case Refused(e) => Refused(e)
        case Accepted(f) => Accepted(before + [f])
  }

  method ParseFilters(lower: Value -> string, allowed: set<Column>, raw: seq<(Name, Value)>)
    returns (r: Planned<seq<FilterCondition>>)
    ensures r == FiltersOf(lower, allowed, raw)
  {
    var conditions: seq<FilterCondition> := [];
    for i := 0 to |raw|
      invariant FiltersOf(lower, allowed, raw[..i]) == Accepted(conditions)
    {
      assert raw[..i + 1][..i] == raw[..i];
      var condition := FilterOf(lower, allowed, raw[i]);
      if condition.Refused? {
        RefusedFilters(lower, allowed, raw, i + 1);
        return Refused(condition.error);
      }
      conditions := conditions + [condition.value];
    }
    assert raw[..|raw|] == raw;
    r := Accepted(conditions);
  }

  lemma {:induction false} RefusedFilters(lower: Value -> string, allowed: set<Column>, raw: seq<(Name, Value)>, n: nat)
    requires n <= |raw| && FiltersOf(lower, allowed, raw[..n]).Refused?
    ensures FiltersOf(lower, allowed, raw) == FiltersOf(lower, allowed, raw[..n])
  {
    if n == |raw| {
      assert raw[..n] == raw;
    } else {
      assert raw[..|raw| - 1][..n] == raw[..n];
      RefusedFilters(lower, allowed, raw[..|raw| - 1], n);
    }
  }

  function Members(columns: seq<Column>, kind: set<Column>): set<Column> { set c | c in columns && c in kind }

  /** Rule A: two or more person attributes exclude row identifiers. */
  predicate IdentifierConflict(columns: seq<Column>) {
    |Members(columns, PERSON_ATTRIBUTES)| >= 2 && Members(columns, ROW_IDENTIFIERS) != {}
  }

  function RawColumns(s: Selection, datasets: seq<Dataset>): seq<Name> {
    if s.columns.Some? then s.columns.value else Defaults(datasets, Allowed(datasets))
  }

  function Defaults(datasets: seq<Dataset>, allowed: set<Column>): seq<Name> {
    if datasets == [] then []
    else Defaults(datasets[..|datasets| - 1], allowed) + OwnAllowed(DefaultColumns(datasets[|datasets| - 1]), allowed)
  }

  function OwnAllowed(columns: seq<Column>, allowed: set<Column>): seq<Name> {
    if columns == [] then []
    else if columns[0] in allowed then [Own(columns[0])] + OwnAllowed(columns[1..], allowed)
    else OwnAllowed(columns[1..], allowed)
  }

  function Resolved(names: seq<Name>, allowed: set<Column>): seq<Name> {
    seq(|names|, i requires 0 <= i < |names| => Resolve(names[i], allowed))
  }

  function Present<T>(xs: seq<Option<T>>): seq<T>
    requires forall x | x in xs :: x.Some?
  {
    seq(|xs|, i requires 0 <= i < |xs| && xs[i].Some? => xs[i].value)
  }

  function Columns(names: seq<Name>): seq<Column>
    requires forall n | n in names :: n.Own?
  {
    seq(|names|, i requires 0 <= i < |names| && names[i].Own? => names[i].column)
  }

  /** The plan over resolved, distinct names. */
  function PlanFor(
    lower: Value -> string, s: Selection, datasets: seq<Dataset>, names: seq<Name>): Planned<SelectionPlan>
    requires s.limit.Some?
  {
    var allowed := Allowed(datasets);
    if exists n :: n in names && !(n.Own? && n.column in allowed) then Refused(ColumnsNotAllowed)
    else if names == [] then Refused(NoColumns)
    else
      match FiltersOf(lower, allowed, s.filters)
      case Refused(e) => Refused(e)
      case Accepted(filters) =>
        if IdentifierConflict(Columns(names)) then Refused(IdentifierRule)
        else Accepted(SelectionPlan(datasets, Columns(names), filters, s.limit.value))
  }

  /** `SelectionPlan._build`. */
  function Build(lower: Value -> string, s: Selection): Planned<SelectionPlan> {
    if s.tables == [] then Refused(NoTables)
    else if exists t :: t in s.tables && t.None? then Refused(UnknownDataset)
    else if s.limit.None? || s.limit.value < 1 || s.limit.value > MAX_LIMIT then Refused(BadLimit)
    else
      var datasets := Distinct(Present(s.tables));
      PlanFor(lower, s, datasets, Distinct(Resolved(RawColumns(s, datasets), Allowed(datasets))))
  }

  /** The value has the form its operator takes apart. */
  predicate Applicable(f: FilterCondition) {
    && (f.operator.In? || f.operator.Between? ==> f.value.List?)
    && (f.operator.Between? ==> |f.value.items| == 2)
    && (f.operator.StartsWith? ==> f.value.Str?)
  }

  /** What every plan satisfies. */
  predicate WellFormed(plan: SelectionPlan) {
    && plan.datasets != [] && plan.columns != [] && 1 <= plan.limit <= MAX_LIMIT
    && (forall c | c in plan.columns :: c in Allowed(plan.datasets))
    && (forall f | f in plan.filters :: f.column in Allowed(plan.datasets) && Applicable(f))
    && (forall i, j | 0 <= i < j < |plan.columns| :: plan.columns[i] != plan.columns[j])
    && !IdentifierConflict(plan.columns)
  }

  lemma {:induction false} FiltersAllowed(lower: Value -> string, allowed: set<Column>, raw: seq<(Name, Value)>)
    requires FiltersOf(lower, allowed, raw).Accepted?
    ensures forall f | f in FiltersOf(lower, allowed, raw).value :: f.column in allowed && Applicable(f)
  {
    if raw != [] { FiltersAllowed(lower, allowed, raw[..|raw| - 1]); }
  }

  lemma BuiltIsWellFormed(lower: Value -> string, s: Selection)
    requires Build(lower, s).Accepted?
    ensures WellFormed(Build(lower, s).value)
  {
    var datasets := Distinct(Present(s.tables));
    assert Present(s.tables) != [] && Present(s.tables)[0] in datasets;
    PlannedIsWellFormed(lower, s, datasets, Distinct(Resolved(RawColumns(s, datasets), Allowed(datasets))));
  }

  lemma PlannedIsWellFormed(lower: Value -> string, s: Selection, datasets: seq<Dataset>, names: seq<Name>)
    requires s.limit.Some? && 1 <= s.limit.value <= MAX_LIMIT && datasets != []
    requires forall i, j | 0 <= i < j < |names| :: names[i] != names[j]
    requires PlanFor(lower, s, datasets, names).Accepted?
    ensures WellFormed(PlanFor(lower, s, datasets, names).value)
  {
    FiltersAllowed(lower, Allowed(datasets), s.filters);
    OwnDistinct(names, Allowed(datasets));
  }

  lemma OwnDistinct(names: seq<Name>, allowed: set<Column>)
    requires forall n | n in names :: n.Own? && n.column in allowed
    requires forall i, j | 0 <= i < j < |names| :: names[i] != names[j]
    ensures |Columns(names)| == |names| && forall c | c in Columns(names) :: c in allowed
    ensures forall i, j | 0 <= i < j < |names| :: Columns(names)[i] != Columns(names)[j]
  {
    assert forall i | 0 <= i < |names| :: names[i] in names && Columns(names)[i] == names[i].column;
  }

  /**
   With two or more person attributes the plan returns only grouping dimensions, measures and the
   weekday.  So the groups cover every column that is not a measure exactly when the weekday,
   which is no dimension, is not selected.
   */
  lemma DimensionsCoverIff(plan: SelectionPlan)
    requires WellFormed(plan) && |Members(plan.columns, PERSON_ATTRIBUTES)| >= 2
    ensures forall c | c in plan.columns :: c in QUASI_IDENTIFIERS || c in MEASURE_COLUMNS || c == TransactionWeekday
    ensures (forall c | c in plan.columns :: c in QUASI_IDENTIFIERS || c in MEASURE_COLUMNS) <==>
      TransactionWeekday !in plan.columns
  {
    forall c | c in plan.columns ensures c in QUASI_IDENTIFIERS || c in MEASURE_COLUMNS || c == TransactionWeekday {
      assert c !in Members(plan.columns, ROW_IDENTIFIERS);
      ColumnClass(c);
    }
    ColumnClass(TransactionWeekday);
  }

  /** Every column is a row identifier, a dimension, a measure, or the weekday. */
  lemma ColumnClass(c: Column)
    ensures c in ROW_IDENTIFIERS || c in QUASI_IDENTIFIERS || c in MEASURE_COLUMNS || c == TransactionWeekday
    ensures c == TransactionWeekday ==> c !in QUASI_IDENTIFIERS && c !in MEASURE_COLUMNS
  {}
}
