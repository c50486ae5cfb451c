/**
 What an accepted selection design is: which derived columns it keeps and what of each, the notice
 about the others, the query columns and filters, and what every part of it satisfies.
 */
module ContractMeaning {
  import opened Values
  import opened DerivationSpec
  import opened SelectionContract
  import opened SelectionFixpoint
  import SelectionMeaning

  // ----- labels -----

  /** The part of a text between what is blank on both sides of it. */
  predicate Trims(blank: char -> bool, s: string, i: nat, j: nat, r: string) {
    && i <= j <= |s| && r == s[i..j]
    && (forall k | 0 <= k < i :: blank(s[k])) && (forall k | j <= k < |s| :: blank(s[k]))
    && (i < j ==> !blank(s[i]) && !blank(s[j - 1]))
  }

  predicate Blank(s: string) { forall i | 0 <= i < |s| :: Space(s[i]) }

  lemma TrimFront(blank: char -> bool, s: string, i: nat, j: nat, r: string)
    requires s != "" && blank(s[0]) && Trims(blank, s[1..], i, j, r)
    ensures Trims(blank, s, i + 1, j + 1, r)
  {
    assert s[1..][i..j] == s[i + 1..j + 1];
    forall k | 0 <= k < i + 1 ensures blank(s[k]) { if k > 0 { assert s[k] == s[1..][k - 1]; } }
    forall k | j + 1 <= k < |s| ensures blank(s[k]) { assert s[k] == s[1..][k - 1]; }
  }

  lemma TrimBack(blank: char -> bool, s: string, n: nat, i: nat, j: nat, r: string)
    requires |s| == n + 1 && blank(s[n]) && Trims(blank, s[..n], i, j, r)
    ensures Trims(blank, s, i, j, r)
  {
    assert s[..n][i..j] == s[i..j];
    assert forall k | 0 <= k < n :: s[k] == s[..n][k];
  }

  lemma {:induction false} StripMeans(s: string) returns (i: nat, j: nat)
    ensures Trims(Space, s, i, j, Strip(s))
    decreases |s|
  {
    i, j := 0, |s|;
    if s != "" && Space(s[0]) {
      i, j := StripMeans(s[1..]);
      TrimFront(Space, s, i, j, Strip(s[1..]));
      i, j := i + 1, j + 1;
    } else if s != "" && Space(s[|s| - 1]) {
      i, j := StripMeans(s[..|s| - 1]);
      TrimBack(Space, s, |s| - 1, i, j, Strip(s[..|s| - 1]));
    } else {
      assert s[0..|s|] == s;
    }
  }

  lemma StripBlank(s: string)
    ensures Strip(s) == "" <==> Blank(s)
  {
    var i, j := StripMeans(s);
  }

  /** One label that says something for each interval. */
  predicate LabelsGiven(labels: Value, count: nat) {
    labels.List? && |labels.items| == count
    && forall i | 0 <= i < count :: labels.items[i].Str? && !Blank(labels.items[i].text)
  }

  /** The label of an interval: the one given, trimmed, or one that names its number and its ends. */
  ghost predicate LabelRead(rules: Rules, labels: Value, bins: seq<Value>, i: nat, r: Value)
    requires i + 1 < |bins|
  {
    && r.Str?
    && (LabelsGiven(labels, |bins| - 1) ==> exists a, b :: Trims(Space, labels.items[i].text, a, b, r.text))
    && (LabelsGiven(labels, |bins| - 1) || r.text ==
          "구간 " + rules.str(Int(i + 1)) + " (" + rules.format(bins[i]) + "~" + rules.format(bins[i + 1]) + ")")
  }

  lemma LabelsFitMeans(labels: Value, count: nat)
    ensures LabelsFit(labels, count) <==> LabelsGiven(labels, count)
  {
    if labels.List? && |labels.items| == count {
      forall i | 0 <= i < count && labels.items[i].Str?
        ensures Strip(labels.items[i].text) == "" <==> Blank(labels.items[i].text)
      {
        StripBlank(labels.items[i].text);
      }
    }
  }

  lemma LabelsMean(rules: Rules, labels: Value, bins: seq<Value>, i: nat)
    requires i + 1 < |bins|
    ensures |Labels(rules, labels, bins).items| == |bins| - 1
    ensures LabelRead(rules, labels, bins, i, Labels(rules, labels, bins).items[i])
  {
    LabelsFitMeans(labels, |bins| - 1);
    if LabelsGiven(labels, |bins| - 1) {
      var a, b := StripMeans(labels.items[i].text);
    }
  }

  // ----- bucketize columns -----

  /** Numbers, with two different ones among them. */
  predicate Divides(bins: seq<Value>) {
    && (forall i | 0 <= i < |bins| :: bins[i].Int? || bins[i].Float?)
    && exists i, j :: 0 <= i < |bins| && 0 <= j < |bins| && Bound(bins[i]) != Bound(bins[j])
  }

  lemma DividesMeans(bins: seq<Value>)
    requires Bins(bins)
    ensures |SortedBins(bins)| >= 2 <==> Divides(bins)
  {
    SortedBinsSorted(bins);
    if |SortedBins(bins)| >= 2 { TwoBounds(bins, SortedBins(bins)); }
    if Divides(bins) { BothCovered(bins, SortedBins(bins)); }
  }

  lemma TwoBounds(bins: seq<Value>, sorted: seq<Value>)
    requires Bins(bins) && |sorted| >= 2 && sorted[0] in bins && sorted[1] in bins
    requires Bound(sorted[0]) < Bound(sorted[1])
    ensures Divides(bins)
  {
    var i :| 0 <= i < |bins| && bins[i] == sorted[0];
    var j :| 0 <= j < |bins| && bins[j] == sorted[1];
    assert Bound(bins[i]) != Bound(bins[j]);
  }

  lemma BothCovered(bins: seq<Value>, sorted: seq<Value>)
    requires Divides(bins) && forall x | x in bins :: Covers(sorted, x)
    ensures |sorted| >= 2
  {
    var i, j :| 0 <= i < |bins| && 0 <= j < |bins| && Bound(bins[i]) != Bound(bins[j]);
    assert bins[i] in bins && bins[j] in bins;
    var a :| 0 <= a < |sorted| && Bound(sorted[a]) == Bound(bins[i]);
    var b :| 0 <= b < |sorted| && Bound(sorted[b]) == Bound(bins[j]);
    assert a != b;
  }

  /** A bucketize column stays when its boundaries divide the numbers; every other column stays. */
  lemma KeepsMeans(c: Value)
    ensures KeepsColumn(c) <==>
      IsBucketize(c) ==>
        BucketParameters(c).Dict? && var bins := Get(BucketParameters(c).entries, "bins");
        bins.List? && Divides(bins.items)
  {
    if IsBucketize(c) && BucketParameters(c).Dict? {
      var bins := Get(BucketParameters(c).entries, "bins");
      if bins.List? && Bins(bins.items) { DividesMeans(bins.items); }
    }
  }

  /** The dictionaries agree outside these keys. */
  ghost predicate SameBut(a: Fields, b: Fields, keys: set<string>) {
    forall k | k !in keys :: (k in a <==> k in b) && Get(a, k) == Get(b, k)
  }

  /** Boundaries in order, all of them and each once. */
  ghost predicate BinsRead(given: seq<Value>, bins: seq<Value>) {
    && (forall i, j | 0 <= i < j < |bins| :: Bound(bins[i]) < Bound(bins[j]))
    && (forall y | y in bins :: y in given)
    && (forall x | x in given :: exists i :: 0 <= i < |bins| && Bound(bins[i]) == Bound(x))
  }

  /** Repairing leaves a bucketize column with its boundaries in order and a label for each interval. */
  ghost predicate ParametersRead(rules: Rules, p: Fields, q: Fields) {
    && SameBut(p, q, {"bins", "labels"})
    && Get(p, "bins").List? && Get(q, "bins").List? && Get(q, "labels").List?
    && BinsRead(p["bins"].items, q["bins"].items)
    && |q["labels"].items| + 1 == |q["bins"].items|
    && forall i | 0 <= i < |q["labels"].items| ::
         LabelRead(rules, Get(p, "labels"), q["bins"].items, i, q["labels"].items[i])
  }

  lemma SortedRead(given: seq<Value>)
    requires Bins(given)
    ensures BinsRead(given, SortedBins(given))
  {
    SortedBinsSorted(given);
    forall x | x in given
      ensures exists i :: 0 <= i < |SortedBins(given)| && Bound(SortedBins(given)[i]) == Bound(x)
    {
      assert Covers(SortedBins(given), x);
    }
  }

  lemma TwoUpdates(p: Fields, bins: Value, labels: Value)
    ensures var q := p["bins" := bins]["labels" := labels];
      SameBut(p, q, {"bins", "labels"}) && Get(q, "bins") == bins && Get(q, "labels") == labels
  {}

  lemma RebinnedMeans(rules: Rules, p: Fields, given: seq<Value>)
    requires Get(p, "bins") == List(given) && Bins(given) && |SortedBins(given)| >= 2
    ensures ParametersRead(rules, p, Rebinned(rules, p))
  {
    var bins := SortedBins(given);
    var labels := Labels(rules, Get(p, "labels"), bins);
    SortedRead(given);
    forall i | 0 <= i < |bins| - 1 ensures LabelRead(rules, Get(p, "labels"), bins, i, labels.items[i]) {
      LabelsMean(rules, Get(p, "labels"), bins, i);
    }
    TwoUpdates(p, List(bins), labels);
    assert Rebinned(rules, p) == p["bins" := List(bins)]["labels" := labels];
    ReadParameters(rules, p, Rebinned(rules, p), given, bins, labels);
  }

  lemma ReadParameters(
    rules: Rules, p: Fields, q: Fields, given: seq<Value>, bins: seq<Value>, labels: Value)
    requires SameBut(p, q, {"bins", "labels"}) && Get(p, "bins") == List(given)
    requires Get(q, "bins") == List(bins) && Get(q, "labels") == labels && labels.List?
    requires BinsRead(given, bins) && |labels.items| + 1 == |bins|
    requires forall i | 0 <= i < |labels.items| :: LabelRead(rules, Get(p, "labels"), bins, i, labels.items[i])
    ensures ParametersRead(rules, p, q)
  {}

  /** The column with other parameters in its expression. */
  ghost predicate Reparameterised(c: Fields, d: Fields, p: Fields, q: Fields) {
    && SameBut(c, d, {"derivation_spec"}) && Get(c, "derivation_spec").Dict? && Get(d, "derivation_spec").Dict?
    && SameBut(c["derivation_spec"].entries, d["derivation_spec"].entries, {"parameters"})
    && Get(c["derivation_spec"].entries, "parameters") == Dict(p)
    && Get(d["derivation_spec"].entries, "parameters") == Dict(q)
  }

  lemma NestedUpdate(c: Fields, spec: Fields, p: Fields, q: Fields)
    requires Get(c, "derivation_spec") == Dict(spec) && Get(spec, "parameters") == Dict(p)
    ensures Reparameterised(c, c["derivation_spec" := Dict(spec["parameters" := Dict(q)])], p, q)
  {}

  /** A column that stays is left as it is, but for the boundaries and labels of a bucketize column. */
  lemma BucketizedMeans(rules: Rules, c: Value)
    requires KeepsColumn(c)
    ensures !IsBucketize(c) ==> Bucketized(rules, c) == c
    ensures IsBucketize(c) ==>
      exists p, q :: Bucketized(rules, c).Dict? && Reparameterised(c.entries, Bucketized(rules, c).entries, p, q)
        && ParametersRead(rules, p, q)
  {
    if IsBucketize(c) {
      var p := BucketParameters(c).entries;
      RebinnedMeans(rules, p, p["bins"].items);
      NestedUpdate(c.entries, c.entries["derivation_spec"].entries, p, Rebinned(rules, p));
    }
  }

  // ----- which columns stay -----

  /** The places of the columns that stay, or of those that do not, in order. */
  ghost predicate Chosen(cs: seq<Value>, stays: bool, places: seq<nat>) {
    && (forall i: nat :: i in places <==> i < |cs| && KeepsColumn(cs[i]) == stays)
    && (forall k, m | 0 <= k < m < |places| :: places[k] < places[m])
  }

  lemma ChosenNext(cs: seq<Value>, stays: bool, places: seq<nat>, n: nat) returns (more: seq<nat>)
    requires |cs| == n + 1 && Chosen(cs[..n], stays, places)
    ensures Chosen(cs, stays, more)
    ensures more == if KeepsColumn(cs[n]) == stays then places + [n] else places
  {
    more := if KeepsColumn(cs[n]) == stays then places + [n] else places;
    forall i: nat ensures i in more <==> i < |cs| && KeepsColumn(cs[i]) == stays {
      assert i < n ==> cs[..n][i] == cs[i];
      assert i in more <==> i in places || (i == n && KeepsColumn(cs[n]) == stays);
    }
    assert forall k | 0 <= k < |places| :: places[k] in places;
  }

  lemma {:induction false} KeptMeans(rules: Rules, cs: seq<Value>) returns (places: seq<nat>)
    ensures Chosen(cs, true, places) && |KeptColumns(rules, cs)| == |places|
    ensures forall k | 0 <= k < |places| ::
      places[k] in places && KeptColumns(rules, cs)[k] == Bucketized(rules, cs[places[k]])
  {
    places := [];
    if cs != [] {
      var n := |cs| - 1;
      places := KeptMeans(rules, cs[..n]);
      places := ChosenNext(cs, true, places, n);
    }
  }

  /** What a dropped column is called in the notice. */
  function Called(rules: Rules, c: Fields): string {
    var name := Get(c, "name");
    if !Truthy(name) then "이름 없는 구간 파생 컬럼" else if name.Str? then name.text else rules.str(name)
  }

  lemma {:induction false} DroppedMeans(rules: Rules, cs: seq<Value>) returns (places: seq<nat>)
    ensures Chosen(cs, false, places) && |Dropped(rules, cs)| == |places|
    ensures forall k | 0 <= k < |places| ::
      places[k] in places && cs[places[k]].Dict?
      && Dropped(rules, cs)[k] == Called(rules, cs[places[k]].entries)
  {
    places := [];
    if cs != [] {
      var n := |cs| - 1;
      places := DroppedMeans(rules, cs[..n]);
      places := ChosenNext(cs, false, places, n);
      DroppedLast(rules, cs, n);
    }
  }

  lemma DroppedLast(rules: Rules, cs: seq<Value>, n: nat)
    requires |cs| == n + 1
    ensures Dropped(rules, cs)
         == Dropped(rules, cs[..n]) + if KeepsColumn(cs[n]) then [] else [Called(rules, cs[n].entries)]
  {}

  lemma DroppedIff(rules: Rules, cs: seq<Value>)
    ensures Dropped(rules, cs) != [] <==> exists c :: c in cs && !KeepsColumn(c)
  {
    var places := DroppedMeans(rules, cs);
    if places != [] {
      assert places[0] in places;
      assert cs[places[0]] in cs;
    }
    if c :| c in cs && !KeepsColumn(c) {
      var i :| 0 <= i < |cs| && cs[i] == c;
      assert i in places;
    }
  }

  /** The texts with a comma between any two. */
  function Commas(texts: seq<string>): string {
    if texts == [] then "" else if |texts| == 1 then texts[0] else texts[0] + ", " + Commas(texts[1..])
  }

  lemma {:induction false} JoinMeans(texts: seq<string>)
    ensures Join(texts) == Commas(texts)
  {
    if |texts| > 1 {
      var n := |texts| - 1;
      JoinMeans(texts[..n]);
      CommasLast(texts[..n], texts[n]);
      assert texts == texts[..n] + [texts[n]];
    }
  }

  lemma {:induction false} CommasLast(texts: seq<string>, last: string)
    requires texts != []
    ensures Commas(texts + [last]) == Commas(texts) + ", " + last
  {
    var all := texts + [last];
    assert all[1..] == texts[1..] + [last];
    if |texts| > 1 { CommasLast(texts[1..], last); }
  }

  /** The notice that names the dropped columns, for a person to confirm. */
  predicate Notice(v: Value, names: seq<string>) {
    && v.Dict? && v.entries.Keys == {"term", "interpreted_as", "reason", "requires_confirmation"}
    && v.entries["term"] == Str(Commas(names))
    && v.entries["requires_confirmation"] == Bool(true)
  }

  /** There is a notice exactly when a column is dropped and there is a list to put it in. */
  lemma NoticeMeans(rules: Rules, data: Fields)
    requires Get(data, "derived_columns").List?
    ensures var before, after := Get(data, "interpretations"), Get(BucketizedDesign(rules, data), "interpretations");
      if before.List? && exists c :: c in data["derived_columns"].items && !KeepsColumn(c) then
        && after.List? && |after.items| == |before.items| + 1 && after.items[..|before.items|] == before.items
        && Notice(after.items[|before.items|], Dropped(rules, data["derived_columns"].items))
      else after == before
  {
    DroppedIff(rules, data["derived_columns"].items);
    JoinMeans(Dropped(rules, data["derived_columns"].items));
  }

  // ----- the query -----

  /** A filter with a single value for `in` gets a list of that value; nothing else changes. */
  ghost predicate FilterSettled(before: Value, after: Value) {
    if before.Dict? && Get(before.entries, "operator") == Str("in")
       && !Get(before.entries, "value").Null? && !Get(before.entries, "value").List?
    then after.Dict? && SameBut(before.entries, after.entries, {"value"})
      && Get(after.entries, "value") == List([Get(before.entries, "value")])
    else after == before
  }

  /** The column names of the sources, in order. */
  ghost predicate Listed(sources: Value, names: seq<string>) {
    && sources.List? && |names| == |sources.items|
    && forall i | 0 <= i < |names| ::
         sources.items[i].Dict? && Get(sources.items[i].entries, "column") == Str(names[i])
  }

  /** The query asks for each source column once, in the order of the sources. */
  ghost predicate QueryRead(before: Fields, after: Fields, names: seq<string>, columns: seq<string>, places: seq<nat>) {
    && SameBut(before, after, {"columns", "filters"})
    && Get(after, "columns") == Names(columns) && SelectionMeaning.FirstPlaces(names, columns, places)
    && Get(before, "filters").Dict? && Get(after, "filters").Dict?
    && before["filters"].entries.Keys == after["filters"].entries.Keys
    && forall k | k in before["filters"].entries ::
         FilterSettled(before["filters"].entries[k], after["filters"].entries[k])
  }

  lemma FilterValueMeans(condition: Value)
    ensures FilterSettled(condition, FilterValue(condition))
  {}

  lemma QueriedMeans(rules: Rules, data: Fields) returns (places: seq<nat>)
    requires QueryAccepted(data) && SourcesAccepted(rules, data)
    ensures SameBut(data, QueriedDesign(rules, data), {"selection_query"})
    ensures Get(QueriedDesign(rules, data), "selection_query").Dict?
    ensures Listed(data["source_columns"], Selected(rules, data))
    ensures QueryRead(data["selection_query"].entries, QueriedDesign(rules, data)["selection_query"].entries,
      Selected(rules, data), Distinct(Selected(rules, data)), places)
  {
    places := SelectionMeaning.DistinctPlaces(Selected(rules, data));
    var filters := data["selection_query"].entries["filters"].entries;
    forall k | k in filters ensures FilterSettled(filters[k], FilterValues(filters)[k]) {
      FilterValueMeans(filters[k]);
    }
  }

  // ----- the types -----

  /** The type a derived column ends up with, from its operation and the type given. */
  predicate TypeRead(operation: string, given: Value, r: string) {
    if operation == "compare" || operation == "logical" then r == "boolean"
    else if operation == "arithmetic" || operation == "aggregate" then
      r == if given == Str("integer") then "integer" else "number"
    else if operation == "bucketize" then
      r == if given == Str("integer") then "integer" else "string"
    else if operation == "date_part" then r == "integer"
    else Str(r) == given && r in ["string", "integer", "number", "boolean"] + OtherTypes(operation)
  }

  function OtherTypes(operation: string): seq<string> {
    if operation == "conditional" then ["date", "datetime"] else []
  }

  lemma TypeMeans(operation: string, given: Value, r: Value)
    requires operation in RESULT_TYPES && ResultType(Str(operation), given) == Some(r)
    ensures r.Str? && r.text in RESULT_TYPES[operation] <==> r.Str? && TypeRead(operation, given, r.text)
  {}

  // ----- what a derived column may refer to -----

  /** A reference to the column is somewhere inside. */
  predicate Mentions(v: Value, name: string)
    decreases v
  {
    match v
    case List(xs) => exists i :: 0 <= i < |xs| && Mentions(xs[i], name)
    case Dict(m) =>
      if m.Keys == {"column"} && m["column"].Str? then m["column"] == Str(name)
      else exists k :: k in m && Mentions(m[k], name)
    case _ => false
  }

  lemma {:induction false} ReferencesMean(v: Value, name: string)
    ensures name in References(v) <==> Mentions(v, name)
    decreases v
  {
    match v {
      case List(xs) =>
        forall i | 0 <= i < |xs| ensures name in References(xs[i]) <==> Mentions(xs[i], name) {
          ReferencesMean(xs[i], name);
        }
      case Dict(m) =>
        forall k | k in m ensures name in References(m[k]) <==> Mentions(m[k], name) { ReferencesMean(m[k], name); }
      case _ =>
    }
  }

  /** A selected column, or the name of a column derived before. */
  lemma AvailableMeans(selected: set<string>, before: seq<Value>, name: string)
    ensures name in Available(selected, before) <==>
      name in selected
      || exists i :: 0 <= i < |before| && before[i].Dict? && Get(before[i].entries, "name") == Str(name)
  {
    if i :| 0 <= i < |before| && before[i].Dict? && Get(before[i].entries, "name") == Str(name) {
      assert before[i].entries["name"].text == name;
    }
  }

  /** A name that reads as a column: one that is available, or that the column declares as a source. */
  lemma DeclaredMeans(rules: Rules, sources: Value, available: set<string>, name: string)
    ensures name in Declared(rules, sources, available) <==>
      name in available
      || (sources.List? && exists v :: v in sources.items && Truthy(v) && name == Written(rules, v))
  {
    if sources.List? && exists v :: v in sources.items && Truthy(v) && name == Written(rules, v) {
      var v :| v in sources.items && Truthy(v) && name == Written(rules, v);
      var i :| 0 <= i < |sources.items| && sources.items[i] == v;
    }
  }

  function Written(rules: Rules, v: Value): string { match v case Str(s) => s case _ => rules.str(v) }

  // ----- the accepted design -----

  /** An expression in the form of version 1.0. */
  predicate Formed(spec: Value) {
    && spec.Dict? && spec.entries.Keys == {"spec_version", "operation", "parameters", "evidence"}
    && spec.entries["spec_version"] == Str("1.0") && spec.entries["operation"].Str?
    && spec.entries["operation"].text in
      ["compare", "logical", "conditional", "arithmetic", "date_part", "bucketize", "aggregate", "map_values"]
    && spec.entries["parameters"].Dict? && spec.entries["parameters"] != Dict(map[])
    && Truthy(spec.entries["evidence"])
  }

  lemma FormMeans(spec: Value)
    ensures SpecShape(spec) <==> Formed(spec)
  {}

  /** A column after the contract: its text parts as before, its type and expression settled. */
  ghost predicate ColumnRead(c: Fields, d: Value) {
    && d.Dict? && SameBut(c, d.entries, {"derivation_spec", "data_type", "source_columns"})
    && Truthy(Get(c, "name")) && Truthy(Get(c, "derivation"))
    && Formed(Get(d.entries, "derivation_spec")) && Get(d.entries, "data_type").Str?
    && TypeRead(d.entries["derivation_spec"].entries["operation"].text, Get(c, "data_type"),
         d.entries["data_type"].text)
  }

  /** The operation can have a type given so; three operations look a given type up, which a list or object fails. */
  ghost predicate Typed(operation: string, given: Value) {
    && (operation in ["arithmetic", "aggregate", "bucketize"] ==> !given.List? && !given.Dict?)
    && exists r :: TypeRead(operation, given, r)
  }

  /** What makes a column acceptable where these names are available, with this expression after normalising. */
  ghost predicate Checks(rules: Rules, c: Fields, available: set<string>, spec: Value) {
    && Truthy(Get(c, "name")) && Truthy(Get(c, "derivation"))
    && (Get(c, "source_columns").Null? || Get(c, "source_columns").List?)
    && Formed(spec) && rules.admits(spec.entries)
    && (exists name :: Mentions(spec.entries["parameters"], name))
    && (forall name | Mentions(spec.entries["parameters"], name) :: name in available)
    && Typed(spec.entries["operation"].text, Get(c, "data_type"))
  }

  /** A column is accepted exactly when its expression can be normalised and the outcome checks. */
  lemma CheckedIff(rules: Rules, c: Fields, available: set<string>)
    ensures CheckedColumn(rules, c, available).Some? <==>
      && Get(c, "derivation_spec").Dict?
      && var spec := Normalize(Declared(rules, Get(c, "source_columns"), available), c["derivation_spec"]);
         spec.Some? && Checks(rules, c, available, spec.value)
  {
    if Get(c, "derivation_spec").Dict? {
      var spec := Normalize(Declared(rules, Get(c, "source_columns"), available), c["derivation_spec"]);
      if spec.Some? { TypedIff(rules, c, available, spec.value); }
    }
  }

  lemma TypedIff(rules: Rules, c: Fields, available: set<string>, spec: Value)
    requires Get(c, "derivation_spec").Dict?
    ensures ColumnDeclared(c) && TypedColumn(rules, c, spec, available).Some? <==> Checks(rules, c, available, spec)
  {
    FormMeans(spec);
    if SpecShape(spec) {
      var parameters := spec.entries["parameters"];
      forall name ensures name in References(parameters) <==> Mentions(parameters, name) {
        ReferencesMean(parameters, name);
      }
      var operation, given := spec.entries["operation"].text, Get(c, "data_type");
      TypedMeans(operation, given);
      if References(parameters) != {} {
        var name :| name in References(parameters);
      }
    }
  }

  lemma TypedMeans(operation: string, given: Value)
    requires operation in RESULT_TYPES
    ensures Typed(operation, given) <==> var r := ResultType(Str(operation), given);
      r.Some? && r.value.Str? && r.value.text in RESULT_TYPES[operation]
  {
    var r := ResultType(Str(operation), given);
    if r.Some? { TypeMeans(operation, given, r.value); }
    if r.Some? && r.value.Str? && r.value.text in RESULT_TYPES[operation] {
      assert TypeRead(operation, given, r.value.text);
    }
    if text :| TypeRead(operation, given, text) { SameType(operation, given, text); }
  }

  lemma SameType(operation: string, given: Value, text: string)
    requires operation in RESULT_TYPES && TypeRead(operation, given, text)
    ensures ResultType(Str(operation), given).Some? ==> ResultType(Str(operation), given).value == Str(text)
  {}

  lemma CheckedMeans(rules: Rules, c: Fields, available: set<string>)
    requires CheckedColumn(rules, c, available).Some?
    ensures ColumnRead(c, Dict(CheckedColumn(rules, c, available).value))
  {
    CheckedColumnRewrites(rules, c, available);
    var d := CheckedColumn(rules, c, available).value;
    var spec := d["derivation_spec"].entries;
    FormMeans(d["derivation_spec"]);
    TypeMeans(spec["operation"].text, Get(c, "data_type"), d["data_type"]);
    KeysKept(rules, c, available);
  }

  lemma KeysKept(rules: Rules, c: Fields, available: set<string>)
    requires CheckedColumn(rules, c, available).Some?
    ensures SameBut(c, CheckedColumn(rules, c, available).value, {"derivation_spec", "data_type", "source_columns"})
  {}

  /**
   The derived columns of an accepted design are those that stay, in order, each settled; there is
   one at least.
   */
  lemma AcceptedColumns(rules: Rules, data: Fields) returns (places: seq<nat>)
    requires Contract(rules, data).Some?
    ensures var cs, ds := data["derived_columns"].items, Get(Contract(rules, data).value, "derived_columns");
      && Chosen(cs, true, places) && ds.List? && |ds.items| == |places| > 0
      && forall k | 0 <= k < |places| ::
           && places[k] in places && Bucketized(rules, cs[places[k]]).Dict?
           && ColumnRead(Bucketized(rules, cs[places[k]]).entries, ds.items[k])
  {
    ContractUnfolded(rules, data);
    var design := Design(rules, data);
    places := KeptMeans(rules, data["derived_columns"].items);
    CheckedRead(rules, design["derived_columns"].items, ToSet(Selected(rules, design)));
  }

  lemma CheckedRead(rules: Rules, cs: seq<Value>, selected: set<string>)
    requires CheckedColumns(rules, cs, selected).Some?
    ensures |CheckedColumns(rules, cs, selected).value| == |cs|
    ensures forall i | 0 <= i < |cs| ::
      cs[i].Dict? && ColumnRead(cs[i].entries, CheckedColumns(rules, cs, selected).value[i])
  {
    forall i | 0 <= i < |cs|
      ensures cs[i].Dict? && ColumnRead(cs[i].entries, CheckedColumns(rules, cs, selected).value[i])
    {
      assert ColumnAt(rules, cs, i, selected).Some?;
      CheckedMeans(rules, cs[i].entries, Available(selected, cs[..i]));
    }
  }

  /** An accepted design has its query settled, and only its columns and its notice differ otherwise. */
  lemma AcceptedQuery(rules: Rules, data: Fields) returns (names: seq<string>, columns: seq<string>, places: seq<nat>)
    requires Contract(rules, data).Some?
    ensures var out := Contract(rules, data).value;
      && SameBut(data, out, {"derived_columns", "interpretations", "selection_query"})
      && Get(out, "interpretations") == Get(BucketizedDesign(rules, data), "interpretations")
      && Listed(Get(data, "source_columns"), names)
      && Get(data, "selection_query").Dict? && Get(out, "selection_query").Dict?
      && QueryRead(data["selection_query"].entries, out["selection_query"].entries, names, columns, places)
  {
    var bucketized := BucketizedDesign(rules, data);
    BucketizedKeys(rules, data);
    names, columns := Selected(rules, bucketized), Distinct(Selected(rules, bucketized));
    places := QueriedMeans(rules, bucketized);
    OnlyColumnsLeft(rules, data);
    ThreeSteps(data, bucketized, Design(rules, data), Contract(rules, data).value);
  }

  lemma OnlyColumnsLeft(rules: Rules, data: Fields)
    requires Contract(rules, data).Some?
    ensures SameBut(Design(rules, data), Contract(rules, data).value, {"derived_columns"})
  {
    ContractUnfolded(rules, data);
  }

  lemma ThreeSteps(data: Fields, bucketized: Fields, design: Fields, out: Fields)
    requires SameBut(data, bucketized, {"derived_columns", "interpretations"})
    requires SameBut(bucketized, design, {"selection_query"}) && SameBut(design, out, {"derived_columns"})
    ensures SameBut(data, out, {"derived_columns", "interpretations", "selection_query"})
    ensures Get(data, "selection_query") == Get(bucketized, "selection_query")
    ensures Get(data, "source_columns") == Get(bucketized, "source_columns")
    ensures Get(out, "selection_query") == Get(design, "selection_query")
    ensures Get(out, "interpretations") == Get(bucketized, "interpretations")
  {}

  lemma BucketizedKeys(rules: Rules, data: Fields)
    requires Get(data, "derived_columns").List?
    ensures SameBut(data, BucketizedDesign(rules, data), {"derived_columns", "interpretations"})
  {}

  /** Two derived columns never share a name, and none has the name of a source. */
  predicate NamesApart(cs: seq<Value>, names: seq<string>) {
    && (forall i | 0 <= i < |cs| :: cs[i].Dict? && forall n | n in names :: Get(cs[i].entries, "name") != Str(n))
    && (forall i, j | 0 <= i < j < |cs| :: !PyEqual(Get(cs[i].entries, "name"), Get(cs[j].entries, "name")))
  }

  /** The source names this column of the database. */
  predicate NamesColumn(c: Fields, known: (string, string)) {
    Get(c, "dataset") == Str(known.0) && Get(c, "column") == Str(known.1)
  }

  predicate Known(rules: Rules, c: Value) {
    c.Dict? && exists known :: known in rules.known && NamesColumn(c.entries, known)
  }

  /** Known sources, a table at least, no limit or vector search, and filters on selected columns alone. */
  ghost predicate QueryPolicy(rules: Rules, out: Fields, names: seq<string>) {
    && Listed(Get(out, "source_columns"), names) && names != []
    && (forall c | c in out["source_columns"].items :: Known(rules, c))
    && Get(out, "selected_tables").List? && out["selected_tables"].items != []
    && Get(out, "selection_query").Dict? && var query := out["selection_query"].entries;
    && "limit" !in query && "top_k" !in query && "vector_similarity" !in query
    && Get(query, "filters").Dict? && forall k | k in query["filters"].entries :: k in names
  }

  /** What an accepted design promises to every later step. */
  lemma AcceptedPolicy(rules: Rules, data: Fields) returns (names: seq<string>)
    requires Contract(rules, data).Some?
    ensures QueryPolicy(rules, Contract(rules, data).value, names)
    ensures var columns := Get(Contract(rules, data).value, "derived_columns");
      columns.List? && NamesApart(columns.items, names)
  {
    ContractUnfolded(rules, data);
    var design := Design(rules, data);
    names := Selected(rules, design);
    var cs := design["derived_columns"].items;
    CheckedNames(rules, cs, ToSet(names));
    NamesAcceptedKept(cs, CheckedColumns(rules, cs, ToSet(names)).value, ToSet(names));
    PolicyRead(rules, design);
    PolicyKept(rules, design, List(CheckedColumns(rules, cs, ToSet(names)).value), names);
    Apart(CheckedColumns(rules, cs, ToSet(names)).value, names);
  }

  lemma PolicyRead(rules: Rules, design: Fields)
    requires SourcesAccepted(rules, design) && QueryAccepted(design) && DesignAccepted(rules, design)
    ensures QueryPolicy(rules, design, Selected(rules, design))
  {
    var query := design["selection_query"].entries;
    forall c | c in design["source_columns"].items ensures Known(rules, c) {
      assert KnownSource(rules, c);
      assert NamesColumn(c.entries, (c.entries["dataset"].text, c.entries["column"].text));
    }
    assert forall k | k in FORBIDDEN_QUERY_KEYS && k in query :: k in FORBIDDEN_QUERY_KEYS * query.Keys;
  }

  lemma PolicyKept(rules: Rules, design: Fields, columns: Value, names: seq<string>)
    requires QueryPolicy(rules, design, names)
    ensures QueryPolicy(rules, design["derived_columns" := columns], names)
  {}

  lemma Apart(cs: seq<Value>, names: seq<string>)
    requires NamesAccepted(cs, ToSet(names))
    ensures NamesApart(cs, names)
  {}
}
