/**
 The contract a data-selection design must meet, and the rewriting it does on the way: bucket
 boundaries and labels, query columns, filter values, derivation expressions, result types and
 source columns.  Follows `_validate_contract` and its helpers in
 agent_runtime/data_selection/agent.py.  `None` is a raised error.
 */
module SelectionContract {
  import opened Values
  import opened DerivationSpec

  /**
   What the contract consults: the database columns it may use, the checks that only read
   (`others` on everything but the derived columns, `admits` on a normalised expression), and
   Python's `sorted` and number formatting.
   */
  datatype Rules = Rules(
    known: set<(string, string)>,
    others: Fields -> bool,
    admits: Fields -> bool,
    sorted: set<string> -> seq<string>,
    str: Value -> string,
    format: Value -> string)

  // ----- bucket boundaries and labels -----

  /** The characters `str.strip` removes. */
  predicate Space(c: char) {
    c in {' ', '\t', '\n', '\r', '\U{0B}', '\U{0C}', '\U{1C}', '\U{1D}', '\U{1E}', '\U{1F}', '\U{85}', '\U{A0}',
          '\U{1680}', '\U{2028}', '\U{2029}', '\U{202F}', '\U{205F}', '\U{3000}'} || '\U{2000}' <= c <= '\U{200A}'
  }

  function Strip(s: string): (r: string)
    ensures r == "" || (!Space(r[0]) && !Space(r[|r| - 1]))
    ensures s != "" && !Space(s[0]) && !Space(s[|s| - 1]) ==> r == s
  {
    if s == "" then s
    else if Space(s[0]) then Strip(s[1..])
    else if Space(s[|s| - 1]) then Strip(s[..|s| - 1])
    else s
  }

  /** A boundary is a finite number and no boolean. */
  predicate IsBin(v: Value) { v.Int? || v.Float? }

  function Bound(v: Value): real { if IsBin(v) then AsReal(v) else 0.0 }

  predicate Bins(xs: seq<Value>) { forall i | 0 <= i < |xs| :: IsBin(xs[i]) }

  predicate Increasing(bins: seq<Value>) {
    Bins(bins) && forall i, j | 0 <= i < j < |bins| :: Bound(bins[i]) < Bound(bins[j])
  }

  predicate Below(bins: seq<Value>, x: Value) { forall i | 0 <= i < |bins| :: Bound(bins[i]) < Bound(x) }

  /** An equal boundary is among them. */
  predicate Covers(bins: seq<Value>, x: Value) { exists i :: 0 <= i < |bins| && Bound(bins[i]) == Bound(x) }

  /** Adds a boundary to sorted ones unless an equal one is there. */
  function InsertBin(x: Value, bins: seq<Value>): seq<Value>
    decreases |bins|
  {
    if bins == [] then [x]
    else
      var n := |bins| - 1;
      if Bound(bins[n]) < Bound(x) then bins + [x]
      else if Bound(bins[n]) == Bound(x) then bins
      else InsertBin(x, bins[..n]) + [bins[n]]
  }

  /** `sorted(set(bins))`: of equal boundaries the first stays. */
  function SortedBins(xs: seq<Value>): seq<Value> {
    if xs == [] then [] else InsertBin(xs[|xs| - 1], SortedBins(xs[..|xs| - 1]))
  }

  lemma CoversAppend(bins: seq<Value>, last: Value, y: Value)
    ensures Covers(bins + [last], y) <==> Covers(bins, y) || Bound(last) == Bound(y)
  {
    var r := bins + [last];
    assert r[|bins|] == last;
    if Covers(bins, y) {
      var i :| 0 <= i < |bins| && Bound(bins[i]) == Bound(y);
      assert r[i] == bins[i];
    }
  }

  lemma {:induction false} InsertBinCovers(x: Value, bins: seq<Value>, y: Value)
    ensures Covers(bins, y) || Bound(x) == Bound(y) ==> Covers(InsertBin(x, bins), y)
    decreases |bins|
  {
    if bins == [] {
      CoversAppend([], x, y);
    } else {
      var n := |bins| - 1;
      assert bins == bins[..n] + [bins[n]];
      CoversAppend(bins[..n], bins[n], y);
      CoversAppend(bins, x, y);
      InsertBinCovers(x, bins[..n], y);
      CoversAppend(InsertBin(x, bins[..n]), bins[n], y);
    }
  }

  lemma {:induction false} InsertBinSorted(x: Value, bins: seq<Value>)
    requires IsBin(x) && Increasing(bins)
    ensures Increasing(InsertBin(x, bins))
    ensures forall y | y in InsertBin(x, bins) :: y == x || y in bins
    decreases |bins|
  {
    if bins != [] {
      var n := |bins| - 1;
      if Bound(bins[n]) > Bound(x) {
        var rest := InsertBin(x, bins[..n]);
        InsertBinSorted(x, bins[..n]);
        assert forall i | 0 <= i < |rest| :: rest[i] in rest;
      }
    }
  }

  /** Sorting gives increasing boundaries, all given ones and no others up to equality; sorted ones stay. */
  lemma {:induction false} SortedBinsSorted(xs: seq<Value>)
    requires Bins(xs)
    ensures Increasing(SortedBins(xs))
    ensures forall y | y in SortedBins(xs) :: y in xs
    ensures forall x | x in xs :: Covers(SortedBins(xs), x)
    ensures Increasing(xs) ==> SortedBins(xs) == xs
  {
    if xs != [] {
      var n := |xs| - 1;
      assert xs == xs[..n] + [xs[n]];
      SortedBinsSorted(xs[..n]);
      InsertBinSorted(xs[n], SortedBins(xs[..n]));
      forall x | x in xs ensures Covers(SortedBins(xs), x) { InsertBinCovers(xs[n], SortedBins(xs[..n]), x); }
    }
  }

  function BucketLabel(rules: Rules, left: Value, right: Value, index: nat): (r: string)
    ensures r != "" && Strip(r) == r
  {
    var r := "구간 " + rules.str(Int(index + 1)) + " (" + rules.format(left) + "~" + rules.format(right) + ")";
    assert r[0] == '구' && r[|r| - 1] == ')';
    r
  }

  predicate LabelsFit(labels: Value, count: nat) {
    labels.List? && |labels.items| == count
    && forall i | 0 <= i < count :: labels.items[i].Str? && Strip(labels.items[i].text) != ""
  }

  function Labels(rules: Rules, labels: Value, bins: seq<Value>): (r: Value)
    requires bins != []
    ensures LabelsFit(r, |bins| - 1)
    ensures forall i | 0 <= i < |bins| - 1 :: Strip(r.items[i].text) == r.items[i].text
  {
    var count := |bins| - 1;
    if LabelsFit(labels, count) then List(seq(count, i requires 0 <= i < count => Str(Strip(labels.items[i].text))))
    else List(seq(count, i requires 0 <= i < count => Str(BucketLabel(rules, bins[i], bins[i + 1], i))))
  }

  predicate IsBucketize(c: Value) {
    c.Dict? && Get(c.entries, "derivation_spec").Dict?
    && Get(c.entries["derivation_spec"].entries, "operation") == Str("bucketize")
  }

  function BucketParameters(c: Value): Value
    requires IsBucketize(c)
  {
    Get(c.entries["derivation_spec"].entries, "parameters")
  }

  /** A bucketize column whose boundaries form at least one interval. */
  predicate HasIntervals(c: Value)
    requires IsBucketize(c)
  {
    var p := BucketParameters(c);
    p.Dict? && Get(p.entries, "bins").List?
    && Bins(p.entries["bins"].items)
    && |SortedBins(p.entries["bins"].items)| >= 2
  }

  predicate KeepsColumn(c: Value) { IsBucketize(c) ==> HasIntervals(c) }

  function Rebinned(rules: Rules, p: Fields): Fields
    requires "bins" in p && p["bins"].List? && Bins(p["bins"].items)
    requires |SortedBins(p["bins"].items)| >= 2
  {
    var bins := SortedBins(p["bins"].items);
    p["bins" := List(bins)]["labels" := Labels(rules, Get(p, "labels"), bins)]
  }

  function Bucketized(rules: Rules, c: Value): Value
    requires KeepsColumn(c)
  {
    if !IsBucketize(c) then c
    else
      var spec := c.entries["derivation_spec"].entries;
      Dict(c.entries["derivation_spec" :=
        Dict(spec["parameters" := Dict(Rebinned(rules, BucketParameters(c).entries))])])
  }

  function KeptColumns(rules: Rules, cs: seq<Value>): seq<Value> {
    if cs == [] then []
    else
      var n := |cs| - 1;
      if KeepsColumn(cs[n]) then KeptColumns(rules, cs[..n]) + [Bucketized(rules, cs[n])]
      else KeptColumns(rules, cs[..n])
  }

  function DroppedName(rules: Rules, c: Value): string
    requires c.Dict?
  {
    if Truthy(Get(c.entries, "name")) then TextOf(rules, Get(c.entries, "name")) else "이름 없는 구간 파생 컬럼"
  }

  function TextOf(rules: Rules, v: Value): string { if v.Str? then v.text else rules.str(v) }

  function Dropped(rules: Rules, cs: seq<Value>): seq<string> {
    if cs == [] then []
    else
      var n := |cs| - 1;
      if KeepsColumn(cs[n]) then Dropped(rules, cs[..n]) else Dropped(rules, cs[..n]) + [DroppedName(rules, cs[n])]
  }

  // ----- one derived column -----

  function ResultType(operation: Value, current: Value): Option<Value> {
    if operation == Str("compare") || operation == Str("logical") then Some(Str("boolean"))
    else if operation == Str("arithmetic") || operation == Str("aggregate") then
      if !Hashable(current) then None
      else Some(if current in {Str("integer"), Str("number")} then current else Str("number"))
    else if operation == Str("bucketize") then
      if !Hashable(current) then None
      else Some(if current in {Str("string"), Str("integer")} then current else Str("string"))
    else if operation == Str("date_part") then Some(Str("integer"))
    else Some(current)
  }

  const RESULT_TYPES: map<string, set<string>> := map[
    "compare" := {"boolean"}, "logical" := {"boolean"},
    "conditional" := {"string", "integer", "number", "boolean", "date", "datetime"},
    "arithmetic" := {"integer", "number"}, "date_part" := {"integer", "string"},
    "bucketize" := {"string", "integer"}, "aggregate" := {"integer", "number"},
    "map_values" := {"string", "integer", "number", "boolean"}]

  const SPEC_KEYS := {"spec_version", "operation", "parameters", "evidence"}

  /** The columns an expression refers to. */
  function References(v: Value): set<string>
    decreases v
  {
    match v
    case List(xs) => set i, name | 0 <= i < |xs| && name in References(xs[i]) :: name
    case Dict(m) =>
      if m.Keys == {"column"} && m["column"].Str? then {m["column"].text}
      else set k, name | k in m && name in References(m[k]) :: name
    case _ => {}
  }

  function Declared(rules: Rules, sources: Value, available: set<string>): set<string> {
    if sources.List?
      then (set i | 0 <= i < |sources.items| && Truthy(sources.items[i]) :: TextOf(rules, sources.items[i])) + available
    else available
  }

  predicate SpecShape(spec: Value) {
    && spec.Dict? && spec.entries.Keys == SPEC_KEYS
    && spec.entries["spec_version"] == Str("1.0")
    && spec.entries["operation"].Str? && spec.entries["operation"].text in RESULT_TYPES
    && spec.entries["parameters"].Dict? && spec.entries["parameters"].entries != map[]
    && Truthy(spec.entries["evidence"])
  }

  predicate SpecAccepted(rules: Rules, spec: Value, dataType: Value, available: set<string>) {
    && SpecShape(spec) && rules.admits(spec.entries)
    && References(spec.entries["parameters"]) != {} && References(spec.entries["parameters"]) <= available
    && dataType.Str? && dataType.text in RESULT_TYPES[spec.entries["operation"].text]
  }

  function Names(texts: seq<string>): Value { List(seq(|texts|, i requires 0 <= i < |texts| => Str(texts[i]))) }

  /** The column with its normalised expression, type and real sources, when they are accepted. */
  function TypedColumn(rules: Rules, c: Fields, spec: Value, available: set<string>): Option<Fields> {
    if !spec.Dict? then None
    else
      match ResultType(Get(spec.entries, "operation"), Get(c, "data_type"))
      case None => None
      case Some(dataType) =>
        if !SpecAccepted(rules, spec, dataType, available) then None
        else Some(c["derivation_spec" := spec]["data_type" := dataType]
                   ["source_columns" := Names(rules.sorted(References(spec.entries["parameters"])))])
  }

  predicate ColumnDeclared(c: Fields) {
    && Truthy(Get(c, "name")) && (Get(c, "source_columns").Null? || Get(c, "source_columns").List?)
    && Truthy(Get(c, "derivation")) && Get(c, "derivation_spec").Dict?
  }

  /** One pass of the loop over the derived columns. */
  function CheckedColumn(rules: Rules, c: Fields, available: set<string>): Option<Fields> {
    if !ColumnDeclared(c) then None
    else
      match Normalize(Declared(rules, Get(c, "source_columns"), available), c["derivation_spec"])
      case None => None
      case Some(spec) => TypedColumn(rules, c, spec, available)
  }

  /** The columns usable by the next derived column: the selected ones and those derived before it. */
  function Available(selected: set<string>, before: seq<Value>): set<string> {
    selected + set i | 0 <= i < |before| && before[i].Dict? && Get(before[i].entries, "name").Str? ::
      before[i].entries["name"].text
  }

  function ColumnAt(rules: Rules, cs: seq<Value>, i: nat, selected: set<string>): Option<Fields>
    requires i < |cs|
  {
    if cs[i].Dict? then CheckedColumn(rules, cs[i].entries, Available(selected, cs[..i])) else None
  }

  function CheckedColumns(rules: Rules, cs: seq<Value>, selected: set<string>): Option<seq<Value>> {
    if forall i | 0 <= i < |cs| :: ColumnAt(rules, cs, i, selected).Some? then
      Some(seq(|cs|, i requires 0 <= i < |cs| => Dict(ColumnAt(rules, cs, i, selected).value)))
    else None
  }

  predicate NamesAccepted(cs: seq<Value>, selected: set<string>) {
    && (forall i | 0 <= i < |cs| ::
          && cs[i].Dict? && Hashable(Get(cs[i].entries, "name")) && !Get(cs[i].entries, "name").Null?
          && (Get(cs[i].entries, "name").Str? ==> cs[i].entries["name"].text !in selected))
    && (forall i, j | 0 <= i < j < |cs| :: !PyEqual(Get(cs[i].entries, "name"), Get(cs[j].entries, "name")))
  }

  // ----- query columns and filters -----

  predicate KnownSource(rules: Rules, c: Value) {
    c.Dict? && Get(c.entries, "dataset").Str? && Get(c.entries, "column").Str?
    && (c.entries["dataset"].text, c.entries["column"].text) in rules.known
  }

  function SourceNames(cs: seq<Value>): seq<string>
    requires forall i | 0 <= i < |cs| :: cs[i].Dict? && Get(cs[i].entries, "column").Str?
  {
    seq(|cs|, i requires 0 <= i < |cs| && cs[i].Dict? && Get(cs[i].entries, "column").Str? =>
      Get(cs[i].entries, "column").text)
  }

  /** A single value of an `in` filter becomes a list of one. */
  function FilterValue(condition: Value): Value {
    if !condition.Dict? || Get(condition.entries, "operator") != Str("in") then condition
    else
      var value := Get(condition.entries, "value");
      if value.Null? || value.List? then condition else Dict(condition.entries["value" := List([value])])
  }

  function FilterValues(filters: Fields): Fields { map k | k in filters :: FilterValue(filters[k]) }

  // ----- the contract -----

  const FORBIDDEN_QUERY_KEYS := {"top_k", "limit", "vector_similarity"}

  function NoticeOf(dropped: string): Value {
    Dict(map[
      "term" := Str(dropped),
      "interpreted_as" := Str("수치 구간 경계를 확정할 수 없어 파생 컬럼에서 제외"),
      "reason" := Str("bucketize 경계가 유한한 숫자 구간으로 성립하지 않아 임의 보정을 하지 않음"),
      "requires_confirmation" := Bool(true)])
  }

  function Join(texts: seq<string>): string {
    if texts == [] then ""
    else if |texts| == 1 then texts[0] else Join(texts[..|texts| - 1]) + ", " + texts[|texts| - 1]
  }

  /** The design with its bucketize columns repaired or dropped. */
  function BucketizedDesign(rules: Rules, data: Fields): Fields
    requires "derived_columns" in data && data["derived_columns"].List?
  {
    var cs := data["derived_columns"].items;
    var kept := data["derived_columns" := List(KeptColumns(rules, cs))];
    var dropped := Dropped(rules, cs);
    if dropped == [] || !Get(data, "interpretations").List? then kept
    else kept["interpretations" := List(data["interpretations"].items + [NoticeOf(Join(dropped))])]
  }

  predicate QueryAccepted(data: Fields) {
    && Get(data, "selection_query").Dict?
    && FORBIDDEN_QUERY_KEYS * data["selection_query"].entries.Keys == {}
    && Get(data["selection_query"].entries, "filters").Dict?
  }

  predicate SourcesAccepted(rules: Rules, data: Fields) {
    Get(data, "source_columns").List? && data["source_columns"].items != []
    && forall i | 0 <= i < |data["source_columns"].items| :: KnownSource(rules, data["source_columns"].items[i])
  }

  function Selected(rules: Rules, data: Fields): seq<string>
    requires SourcesAccepted(rules, data)
  {
    SourceNames(data["source_columns"].items)
  }

  /** The design with generated query columns and normalised filter values. */
  function QueriedDesign(rules: Rules, data: Fields): Fields
    requires QueryAccepted(data) && SourcesAccepted(rules, data)
  {
    var query := data["selection_query"].entries;
    data["selection_query" := Dict(
      query["columns" := Names(Distinct(Selected(rules, data)))]["filters" :=
        Dict(FilterValues(query["filters"].entries))])]
  }

  /** Everything that reads the design once its query and bucketize columns are in order. */
  predicate DesignAccepted(rules: Rules, data: Fields)
    requires SourcesAccepted(rules, data) && QueryAccepted(data)
  {
    && Get(data, "selected_tables").List? && data["selected_tables"].items != []
    && Get(data, "derived_columns").List? && data["derived_columns"].items != []
    && (forall name | name in data["selection_query"].entries["filters"].entries :: name in Selected(rules, data))
    && rules.others(data - {"derived_columns"})
    && NamesAccepted(data["derived_columns"].items, ToSet(Selected(rules, data)))
  }

  function ToSet(names: seq<string>): set<string> { set name | name in names }

  /** `_validate_contract`: the rewritten design, or None when it is refused. */
  function Contract(rules: Rules, data: Fields): Option<Fields> {
    if !Get(data, "derived_columns").List? then None
    else
      var bucketized := BucketizedDesign(rules, data);
      if !SourcesAccepted(rules, bucketized) || !QueryAccepted(bucketized) then None
      else
        var design := QueriedDesign(rules, bucketized);
        if !DesignAccepted(rules, design) then None
        else
          match CheckedColumns(rules, design["derived_columns"].items, ToSet(Selected(rules, design)))
          case None => None
          case Some(cs) => Some(design["derived_columns" := List(cs)])
  }

  // ----- the loops -----

  method NormalizeBucketizeColumns(rules: Rules, cs: seq<Value>) returns (kept: seq<Value>, dropped: seq<string>)
    ensures kept == KeptColumns(rules, cs) && dropped == Dropped(rules, cs)
  {
    kept, dropped := [], [];
    for i := 0 to |cs|
      invariant kept == KeptColumns(rules, cs[..i]) && dropped == Dropped(rules, cs[..i])
    {
      assert cs[..i + 1][..i] == cs[..i];
      if KeepsColumn(cs[i]) {
        kept := kept + [Bucketized(rules, cs[i])];
      } else {
        dropped := dropped + [DroppedName(rules, cs[i])];
      }
    }
    assert cs[..|cs|] == cs;
  }

  method CheckDerivedColumns(rules: Rules, cs: seq<Value>, selected: set<string>) returns (r: Option<seq<Value>>)
    ensures r == CheckedColumns(rules, cs, selected)
  {
    var available, done: seq<Value> := selected, [];
    for i := 0 to |cs|
      invariant available == Available(selected, cs[..i])
      invariant |done| == i && ChecksSoFar(rules, cs, selected, done)
    {
      var column := if cs[i].Dict? then CheckedColumn(rules, cs[i].entries, available) else None;
      assert column == ColumnAt(rules, cs, i, selected);
      if column.None? {
        RefusedColumn(rules, cs, selected, i);
        return None;
      }
      var name := Get(cs[i].entries, "name");
      AvailableNext(selected, cs, i);
      NextCheck(rules, cs, selected, done, column.value);
      done := done + [Dict(column.value)];
      if name.Str? { available := available + {name.text}; }
    }
    ColumnsDone(rules, cs, selected, done);
    r := Some(done);
  }

  predicate ChecksSoFar(rules: Rules, cs: seq<Value>, selected: set<string>, done: seq<Value>) {
    |done| <= |cs|
      && forall j | 0 <= j < |done| :: done[j].Dict? && ColumnAt(rules, cs, j, selected) == Some(done[j].entries)
  }

  lemma NextCheck(rules: Rules, cs: seq<Value>, selected: set<string>, done: seq<Value>, column: Fields)
    requires |done| < |cs| && ChecksSoFar(rules, cs, selected, done)
    requires ColumnAt(rules, cs, |done|, selected) == Some(column)
    ensures ChecksSoFar(rules, cs, selected, done + [Dict(column)])
  {
    var more := done + [Dict(column)];
    forall j | 0 <= j < |more| ensures more[j].Dict? && ColumnAt(rules, cs, j, selected) == Some(more[j].entries) {
      assert j < |done| ==> more[j] == done[j];
    }
  }

  lemma RefusedColumn(rules: Rules, cs: seq<Value>, selected: set<string>, i: nat)
    requires i < |cs| && ColumnAt(rules, cs, i, selected).None?
    ensures CheckedColumns(rules, cs, selected).None?
  {}

  lemma ColumnsDone(rules: Rules, cs: seq<Value>, selected: set<string>, done: seq<Value>)
    requires |done| == |cs| && ChecksSoFar(rules, cs, selected, done)
    ensures CheckedColumns(rules, cs, selected) == Some(done)
  {
    assert CheckedColumns(rules, cs, selected).value == done;
  }

  lemma AvailableNext(selected: set<string>, cs: seq<Value>, i: nat)
    requires i < |cs| && cs[i].Dict?
    ensures var name := Get(cs[i].entries, "name");
      Available(selected, cs[..i + 1]) == Available(selected, cs[..i]) + if name.Str? then {name.text} else {}
  {
    var name := Get(cs[i].entries, "name");
    assert cs[..i + 1] == cs[..i] + [cs[i]];
    var before, after := cs[..i], cs[..i + 1];
    forall x | x in Available(selected, before) ensures x in Available(selected, after) {
      if x !in selected {
        var j :| 0 <= j < i && before[j].Dict? && Get(before[j].entries, "name").Str?
          && before[j].entries["name"].text == x;
        assert after[j] == before[j];
      }
    }
    if name.Str? { assert after[i].entries["name"].text in Available(selected, after); }
  }
}
