/**
 Validating a design a second time: whatever the contract accepted and rewrote once, it accepts
 again and leaves as it is.  The agent relies on this by checking the same design at every later
 step (agent_runtime/data_selection/agent.py, lines 1849 and 1946).
 */
module SelectionFixpoint {
  import opened Values
  import opened DerivationSpec
  import opened DerivationFixpoint
  import opened SelectionContract

  // ----- one column -----

  lemma ResultTypeFixed(operation: Value, current: Value)
    ensures ResultType(operation, current).Some? ==>
      ResultType(operation, ResultType(operation, current).value) == ResultType(operation, current)
  {}

  /** What the check leaves of a column. */
  ghost predicate Rewrites(rules: Rules, c: Fields, available: set<string>, d: Fields) {
    && ColumnDeclared(d)
    && (forall k | k !in {"derivation_spec", "data_type", "source_columns"} :: Get(d, k) == Get(c, k))
    && "derivation_spec" in c && c["derivation_spec"].Dict? && "derivation_spec" in d && d["derivation_spec"].Dict?
    && Normalize(Declared(rules, Get(c, "source_columns"), available), c["derivation_spec"])
      == Some(d["derivation_spec"])
    && "data_type" in d
    && ResultType(Get(d["derivation_spec"].entries, "operation"), Get(c, "data_type")) == Some(d["data_type"])
    && SpecAccepted(rules, d["derivation_spec"], d["data_type"], available)
    && "source_columns" in d
    && d["source_columns"] == Names(rules.sorted(References(d["derivation_spec"].entries["parameters"])))
  }

  lemma CheckedColumnRewrites(rules: Rules, c: Fields, available: set<string>)
    requires CheckedColumn(rules, c, available).Some?
    ensures Rewrites(rules, c, available, CheckedColumn(rules, c, available).value)
  {
    TypedColumnRewrites(rules, c,
      Normalize(Declared(rules, Get(c, "source_columns"), available), c["derivation_spec"]).value, available);
  }

  lemma TypedColumnRewrites(rules: Rules, c: Fields, spec: Value, available: set<string>)
    requires ColumnDeclared(c) && TypedColumn(rules, c, spec, available).Some?
    ensures var d := TypedColumn(rules, c, spec, available).value;
      && ColumnDeclared(d) && Get(d, "derivation_spec") == spec
      && (forall k | k !in {"derivation_spec", "data_type", "source_columns"} :: Get(d, k) == Get(c, k))
      && "data_type" in d && ResultType(Get(spec.entries, "operation"), Get(c, "data_type")) == Some(d["data_type"])
      && SpecAccepted(rules, spec, d["data_type"], available)
      && "source_columns" in d && d["source_columns"] == Names(rules.sorted(References(spec.entries["parameters"])))
  {}

  lemma TypedColumnFixed(rules: Rules, d: Fields, spec: Value, available: set<string>)
    requires spec.Dict? && "derivation_spec" in d && d["derivation_spec"] == spec && "data_type" in d
    requires "source_columns" in d
    requires ResultType(Get(spec.entries, "operation"), d["data_type"]) == Some(d["data_type"])
    requires SpecAccepted(rules, spec, d["data_type"], available)
    requires d["source_columns"] == Names(rules.sorted(References(spec.entries["parameters"])))
    ensures TypedColumn(rules, d, spec, available) == Some(d)
  {
    assert d["derivation_spec" := spec]["data_type" := d["data_type"]]["source_columns" := d["source_columns"]] == d;
  }

  lemma StableColumn(rules: Rules, c: Fields, available: set<string>, d: Fields)
    requires Rewrites(rules, c, available, d) && Fixed(d["derivation_spec"])
    requires ResultType(Get(d["derivation_spec"].entries, "operation"), d["data_type"]) == Some(d["data_type"])
    ensures CheckedColumn(rules, d, available) == Some(d)
  {
    TypedColumnFixed(rules, d, d["derivation_spec"], available);
  }

  /** Checking a rewritten column again changes nothing. */
  lemma CheckedColumnFixed(rules: Rules, c: Fields, available: set<string>)
    requires CheckedColumn(rules, c, available).Some?
    ensures CheckedColumn(rules, CheckedColumn(rules, c, available).value, available)
         == CheckedColumn(rules, c, available)
  {
    CheckedColumnRewrites(rules, c, available);
    NormalizeSettles(Declared(rules, Get(c, "source_columns"), available), c["derivation_spec"]);
    var d := CheckedColumn(rules, c, available).value;
    ResultTypeFixed(Get(d["derivation_spec"].entries, "operation"), Get(c, "data_type"));
    StableColumn(rules, c, available, d);
  }

  lemma AvailableKept(selected: set<string>, cs: seq<Value>, ds: seq<Value>)
    requires |cs| == |ds|
    requires forall i | 0 <= i < |cs| ::
      cs[i].Dict? && ds[i].Dict? && Get(ds[i].entries, "name") == Get(cs[i].entries, "name")
    ensures Available(selected, cs) == Available(selected, ds)
  {
    forall x ensures x in Available(selected, cs) <==> x in Available(selected, ds) {}
  }

  predicate SameNames(cs: seq<Value>, ds: seq<Value>) {
    |cs| == |ds| &&
    forall i | 0 <= i < |cs| :: cs[i].Dict? && ds[i].Dict? && Get(ds[i].entries, "name") == Get(cs[i].entries, "name")
  }

  lemma CheckedNames(rules: Rules, cs: seq<Value>, selected: set<string>)
    requires CheckedColumns(rules, cs, selected).Some?
    ensures SameNames(cs, CheckedColumns(rules, cs, selected).value)
  {
    forall i | 0 <= i < |cs|
      ensures cs[i].Dict?
      ensures Get(CheckedColumns(rules, cs, selected).value[i].entries, "name") == Get(cs[i].entries, "name")
    {
      assert ColumnAt(rules, cs, i, selected).Some?;
      CheckedColumnRewrites(rules, cs[i].entries, Available(selected, cs[..i]));
    }
  }

  lemma CheckedColumnsFixed(rules: Rules, cs: seq<Value>, selected: set<string>)
    requires CheckedColumns(rules, cs, selected).Some?
    ensures CheckedColumns(rules, CheckedColumns(rules, cs, selected).value, selected)
         == CheckedColumns(rules, cs, selected)
  {
    var ds := CheckedColumns(rules, cs, selected).value;
    CheckedNames(rules, cs, selected);
    forall i | 0 <= i < |ds| ensures ColumnAt(rules, ds, i, selected) == Some(ds[i].entries) {
      assert ColumnAt(rules, cs, i, selected).Some?;
      AvailableKept(selected, cs[..i], ds[..i]);
      CheckedColumnFixed(rules, cs[i].entries, Available(selected, cs[..i]));
    }
    assert CheckedColumns(rules, ds, selected).value == ds;
  }

  // ----- buckets -----

  predicate Scalars(v: Value) { v.List? && forall i | 0 <= i < |v.items| :: !v.items[i].Dict? && !v.items[i].List? }

  lemma ScalarsNested(declared: set<string>, v: Value)
    requires Scalars(v)
    ensures NestedValue(declared, v) == Some(v)
  {
    assert forall i | 0 <= i < |v.items| :: Normalize(declared, v.items[i]) == Some(v.items[i]);
    assert NestedValue(declared, v).value.items == v.items;
  }

  predicate Holds(p: Fields, key: string, v: Value) { key in p && p[key] == v }

  lemma SourcedKeeps(declared: set<string>, p: Fields, key: string, v: Value)
    requires Sourced(declared, p).Some? && key in {"bins", "labels"} && Holds(p, key, v)
    ensures Holds(Sourced(declared, p).value, key, v)
  {}

  lemma NestedKeeps(declared: set<string>, p: Fields, key: string, v: Value)
    requires Nested(declared, p).Some? && Holds(p, key, v) && Scalars(v)
    ensures Holds(Nested(declared, p).value, key, v)
  {
    ScalarsNested(declared, v);
  }

  lemma AliasKeeps(p: Fields, key: string, v: Value)
    requires AliasOperator(p).Some? && key in {"bins", "labels"} && Holds(p, key, v)
    ensures Holds(AliasOperator(p).value, key, v)
  {}

  lemma KeysThrough(declared: set<string>, p: Fields, key: string, v: Value)
    requires Sourced(declared, p).Some? && Nested(declared, Sourced(declared, p).value).Some?
    requires key in {"bins", "labels"} && Holds(p, key, v) && Scalars(v)
    ensures Holds(Nested(declared, Sourced(declared, p).value).value, key, v)
  {
    SourcedKeeps(declared, p, key, v);
    NestedKeeps(declared, Sourced(declared, p).value, key, v);
  }

  /** Boundaries and labels pass through the expression normaliser. */
  lemma BucketKeysKept(declared: set<string>, p: Fields, key: string, v: Value)
    requires Rewritten(declared, Bucketize, p).Some? && key in {"bins", "labels"} && Holds(p, key, v) && Scalars(v)
    ensures Holds(Rewritten(declared, Bucketize, p).value, key, v)
  {
    AliasKeeps(p, key, v);
    KeysThrough(declared, AliasOperator(p).value, key, v);
  }

  lemma LabelsFixed(rules: Rules, labels: Value, bins: seq<Value>)
    requires bins != []
    ensures Labels(rules, Labels(rules, labels, bins), bins) == Labels(rules, labels, bins)
  {
    var r := Labels(rules, labels, bins);
    assert Labels(rules, r, bins).items == r.items;
  }

  /** Repaired parameters are repaired to themselves. */
  lemma RebinnedFixed(rules: Rules, p: Fields, q: Fields)
    requires "bins" in p && p["bins"].List? && Bins(p["bins"].items) && |SortedBins(p["bins"].items)| >= 2
    requires var r := Rebinned(rules, p);
      "bins" in q && "labels" in q && q["bins"] == r["bins"] && q["labels"] == r["labels"]
    ensures q["bins"].List? && Bins(q["bins"].items) && |SortedBins(q["bins"].items)| >= 2 && Rebinned(rules, q) == q
  {
    var bins := SortedBins(p["bins"].items);
    SortedBinsSorted(p["bins"].items);
    LabelsFixed(rules, Get(p, "labels"), bins);
    StableBins(rules, q, bins, Labels(rules, Get(p, "labels"), bins));
  }

  lemma StableBins(rules: Rules, q: Fields, bins: seq<Value>, labels: Value)
    requires Increasing(bins) && |bins| >= 2 && Labels(rules, labels, bins) == labels
    requires "bins" in q && "labels" in q && q["bins"] == List(bins) && q["labels"] == labels
    ensures Bins(bins) && SortedBins(bins) == bins && Rebinned(rules, q) == q
  {
    SortedBinsSorted(bins);
    assert q["bins" := q["bins"]]["labels" := q["labels"]] == q;
  }

  lemma RebinnedScalars(rules: Rules, p: Fields)
    requires "bins" in p && p["bins"].List? && Bins(p["bins"].items) && |SortedBins(p["bins"].items)| >= 2
    ensures Scalars(Rebinned(rules, p)["bins"]) && Scalars(Rebinned(rules, p)["labels"])
  {
    SortedBinsSorted(p["bins"].items);
  }

  /** The expression normaliser keeps repaired parameters repaired. */
  lemma RebinnedSurvives(rules: Rules, declared: set<string>, p: Fields)
    requires "bins" in p && p["bins"].List? && Bins(p["bins"].items) && |SortedBins(p["bins"].items)| >= 2
    requires Rewritten(declared, Bucketize, Rebinned(rules, p)).Some?
    ensures var q := Rewritten(declared, Bucketize, Rebinned(rules, p)).value;
      && "bins" in q && q["bins"].List? && Bins(q["bins"].items) && |SortedBins(q["bins"].items)| >= 2
      && Rebinned(rules, q) == q
  {
    var r := Rebinned(rules, p);
    RebinnedScalars(rules, p);
    BucketKeysKept(declared, r, "bins", r["bins"]);
    BucketKeysKept(declared, r, "labels", r["labels"]);
    RebinnedFixed(rules, p, Rewritten(declared, Bucketize, r).value);
  }

  /** What normalising does to the expression of a bucketize column. */
  lemma BucketizeNormalized(declared: set<string>, spec: Value)
    requires spec.Dict? && Get(spec.entries, "operation") == Str("bucketize") && Get(spec.entries, "parameters").Dict?
    requires Normalize(declared, spec).Some?
    ensures var after := Normalize(declared, spec).value;
      var p := Rewritten(declared, Bucketize, spec.entries["parameters"].entries);
      && after.Dict? && Get(after.entries, "operation") == Str("bucketize")
      && p.Some? && Get(after.entries, "parameters") == Dict(p.value)
  {}

  lemma SelfBucketized(rules: Rules, d: Fields)
    requires IsBucketize(Dict(d)) && BucketParameters(Dict(d)).Dict?
    requires var q := BucketParameters(Dict(d)).entries;
      && "bins" in q && q["bins"].List? && Bins(q["bins"].items) && |SortedBins(q["bins"].items)| >= 2
      && Rebinned(rules, q) == q
    ensures KeepsColumn(Dict(d)) && Bucketized(rules, Dict(d)) == Dict(d)
  {
    var spec := d["derivation_spec"].entries;
    assert "parameters" in spec && spec["parameters" := spec["parameters"]] == spec;
    assert d["derivation_spec" := Dict(spec)] == d;
  }

  /** A repaired, checked column is repaired to itself. */
  lemma BucketizedFixed(rules: Rules, c: Value, available: set<string>)
    requires KeepsColumn(c) && Bucketized(rules, c).Dict?
    requires CheckedColumn(rules, Bucketized(rules, c).entries, available).Some?
    ensures var d := Dict(CheckedColumn(rules, Bucketized(rules, c).entries, available).value);
      KeepsColumn(d) && Bucketized(rules, d) == d
  {
    var b := Bucketized(rules, c).entries;
    CheckedColumnRewrites(rules, b, available);
    var declared := Declared(rules, Get(b, "source_columns"), available);
    var d := CheckedColumn(rules, b, available).value;
    if IsBucketize(c) {
      NormalizedBuckets(rules, declared, c, d);
    } else {
      assert Get(d["derivation_spec"].entries, "operation") == Get(b["derivation_spec"].entries, "operation");
    }
  }

  lemma NormalizedBuckets(rules: Rules, declared: set<string>, c: Value, d: Fields)
    requires IsBucketize(c) && KeepsColumn(c) && "derivation_spec" in d
    requires Normalize(declared, Bucketized(rules, c).entries["derivation_spec"]) == Some(d["derivation_spec"])
    ensures KeepsColumn(Dict(d)) && Bucketized(rules, Dict(d)) == Dict(d)
  {
    BucketizeNormalized(declared, Bucketized(rules, c).entries["derivation_spec"]);
    RebinnedSurvives(rules, declared, BucketParameters(c).entries);
    SelfBucketized(rules, d);
  }

  predicate Repaired(rules: Rules, c: Value) { KeepsColumn(c) && Bucketized(rules, c) == c }

  lemma AppendRepaired(rules: Rules, before: seq<Value>, c: Value)
    requires KeptColumns(rules, before) == before && Dropped(rules, before) == [] && Repaired(rules, c)
    ensures KeptColumns(rules, before + [c]) == before + [c] && Dropped(rules, before + [c]) == []
  {
    var all := before + [c];
    assert all[..|all| - 1] == before && all[|all| - 1] == c;
  }

  lemma {:induction false} KeptColumnsFixed(rules: Rules, ds: seq<Value>, n: nat)
    requires n <= |ds| && forall i | 0 <= i < |ds| :: Repaired(rules, ds[i])
    ensures KeptColumns(rules, ds[..n]) == ds[..n] && Dropped(rules, ds[..n]) == []
  {
    if n > 0 {
      KeptColumnsFixed(rules, ds, n - 1);
      AppendRepaired(rules, ds[..n - 1], ds[n - 1]);
      assert ds[..n] == ds[..n - 1] + [ds[n - 1]];
    }
  }

  lemma {:induction false} KeptColumnsOrigin(rules: Rules, cs: seq<Value>, i: nat)
    requires i < |KeptColumns(rules, cs)|
    ensures exists c :: c in cs && KeepsColumn(c) && KeptColumns(rules, cs)[i] == Bucketized(rules, c)
  {
    var n := |cs| - 1;
    if i < |KeptColumns(rules, cs[..n])| {
      KeptColumnsOrigin(rules, cs[..n], i);
    } else {
      assert cs[n] in cs;
    }
  }

  /** The checked columns of a repaired design survive another repair. */
  lemma RepairFixed(rules: Rules, cs: seq<Value>, selected: set<string>)
    requires CheckedColumns(rules, KeptColumns(rules, cs), selected).Some?
    ensures var ds := CheckedColumns(rules, KeptColumns(rules, cs), selected).value;
      KeptColumns(rules, ds) == ds && Dropped(rules, ds) == []
  {
    var kept := KeptColumns(rules, cs);
    var ds := CheckedColumns(rules, kept, selected).value;
    forall i | 0 <= i < |ds| ensures Repaired(rules, ds[i]) {
      assert ColumnAt(rules, kept, i, selected).Some?;
      KeptColumnsOrigin(rules, cs, i);
      var c :| c in cs && KeepsColumn(c) && kept[i] == Bucketized(rules, c);
      BucketizedFixed(rules, c, Available(selected, kept[..i]));
    }
    KeptColumnsFixed(rules, ds, |ds|);
    assert ds[..|ds|] == ds;
  }

  // ----- the whole design -----

  lemma FilterValuesFixed(filters: Fields)
    ensures FilterValues(FilterValues(filters)) == FilterValues(filters)
  {}

  lemma NamesAcceptedKept(cs: seq<Value>, ds: seq<Value>, selected: set<string>)
    requires NamesAccepted(cs, selected) && SameNames(cs, ds)
    ensures NamesAccepted(ds, selected)
  {}

  lemma QueriedFixed(rules: Rules, data: Fields)
    requires QueryAccepted(data) && SourcesAccepted(rules, data)
    ensures var design := QueriedDesign(rules, data);
      && SourcesAccepted(rules, design) && QueryAccepted(design) && Selected(rules, design) == Selected(rules, data)
      && QueriedDesign(rules, design) == design
  {
    var design := QueriedDesign(rules, data);
    var filters := data["selection_query"].entries["filters"].entries;
    FilterValuesFixed(filters);
    var query := design["selection_query"].entries;
    assert query["columns" := query["columns"]]["filters" := Dict(FilterValues(FilterValues(filters)))] == query;
    assert design["selection_query" := Dict(query)] == design;
  }

  /** Replacing the derived columns leaves what the query reads alone. */
  lemma QueryIgnoresDerived(rules: Rules, design: Fields, ds: Value)
    requires QueryAccepted(design) && SourcesAccepted(rules, design) && QueriedDesign(rules, design) == design
    ensures var out := design["derived_columns" := ds];
      && SourcesAccepted(rules, out) && QueryAccepted(out) && Selected(rules, out) == Selected(rules, design)
      && QueriedDesign(rules, out) == out
  {
    var out := design["derived_columns" := ds];
    assert QueriedDesign(rules, out) == QueriedDesign(rules, design)["derived_columns" := ds];
  }

  lemma AcceptedKept(rules: Rules, design: Fields, ds: seq<Value>)
    requires QueryAccepted(design) && SourcesAccepted(rules, design) && DesignAccepted(rules, design)
    requires SameNames(design["derived_columns"].items, ds)
    ensures var out := design["derived_columns" := List(ds)];
      SourcesAccepted(rules, out) && QueryAccepted(out) && DesignAccepted(rules, out)
  {
    var out := design["derived_columns" := List(ds)];
    assert out - {"derived_columns"} == design - {"derived_columns"};
    NamesAcceptedKept(design["derived_columns"].items, ds, ToSet(Selected(rules, design)));
  }

  /** The design as it stands before its derived columns are checked. */
  function Design(rules: Rules, data: Fields): Fields
    requires Contract(rules, data).Some?
  {
    QueriedDesign(rules, BucketizedDesign(rules, data))
  }

  lemma BucketizedColumns(rules: Rules, data: Fields)
    requires "derived_columns" in data && data["derived_columns"].List?
    ensures Get(BucketizedDesign(rules, data), "derived_columns")
         == List(KeptColumns(rules, data["derived_columns"].items))
  {}

  lemma QueriedColumns(rules: Rules, data: Fields)
    requires QueryAccepted(data) && SourcesAccepted(rules, data)
    ensures Get(QueriedDesign(rules, data), "derived_columns") == Get(data, "derived_columns")
  {}

  lemma ContractUnfolded(rules: Rules, data: Fields)
    requires Contract(rules, data).Some?
    ensures var design := Design(rules, data);
      && SourcesAccepted(rules, design) && QueryAccepted(design) && DesignAccepted(rules, design)
      && QueriedDesign(rules, design) == design
      && design["derived_columns"] == List(KeptColumns(rules, data["derived_columns"].items))
      && var checked := CheckedColumns(rules, design["derived_columns"].items, ToSet(Selected(rules, design)));
         checked.Some? && Contract(rules, data) == Some(design["derived_columns" := List(checked.value)])
  {
    BucketizedColumns(rules, data);
    QueriedColumns(rules, BucketizedDesign(rules, data));
    QueriedFixed(rules, BucketizedDesign(rules, data));
  }

  /** A design that every part of the contract leaves as it is. */
  predicate Unchanged(rules: Rules, out: Fields) {
    && Get(out, "derived_columns").List? && BucketizedDesign(rules, out) == out
    && SourcesAccepted(rules, out) && QueryAccepted(out) && QueriedDesign(rules, out) == out
    && DesignAccepted(rules, out)
    && CheckedColumns(rules, out["derived_columns"].items, ToSet(Selected(rules, out)))
      == Some(out["derived_columns"].items)
  }

  lemma UnchangedPasses(rules: Rules, out: Fields)
    requires Unchanged(rules, out)
    ensures Contract(rules, out) == Some(out)
  {
    assert out["derived_columns" := List(out["derived_columns"].items)] == out;
  }

  lemma SelfRepaired(rules: Rules, out: Fields)
    requires "derived_columns" in out && out["derived_columns"].List?
    requires KeptColumns(rules, out["derived_columns"].items) == out["derived_columns"].items
    requires Dropped(rules, out["derived_columns"].items) == []
    ensures BucketizedDesign(rules, out) == out
  {
    assert out["derived_columns" := List(out["derived_columns"].items)] == out;
  }

  lemma CheckedUnchanged(rules: Rules, design: Fields, columns: seq<Value>, selected: set<string>)
    requires SourcesAccepted(rules, design) && QueryAccepted(design) && DesignAccepted(rules, design)
    requires QueriedDesign(rules, design) == design && selected == ToSet(Selected(rules, design))
    requires design["derived_columns"] == List(KeptColumns(rules, columns))
    requires CheckedColumns(rules, KeptColumns(rules, columns), selected).Some?
    ensures Unchanged(rules,
      design["derived_columns" := List(CheckedColumns(rules, KeptColumns(rules, columns), selected).value)])
  {
    var kept := KeptColumns(rules, columns);
    var ds := CheckedColumns(rules, kept, selected).value;
    RepairFixed(rules, columns, selected);
    SelfRepaired(rules, design["derived_columns" := List(ds)]);
    QueryIgnoresDerived(rules, design, List(ds));
    CheckedNames(rules, kept, selected);
    AcceptedKept(rules, design, ds);
    CheckedColumnsFixed(rules, kept, selected);
  }

  /** Validation is a fixpoint: an accepted design is accepted again, unchanged. */
  lemma ContractIsFixpoint(rules: Rules, data: Fields)
    requires Contract(rules, data).Some?
    ensures Contract(rules, Contract(rules, data).value) == Contract(rules, data)
  {
    ContractUnfolded(rules, data);
    var design := Design(rules, data);
    CheckedUnchanged(rules, design, data["derived_columns"].items, ToSet(Selected(rules, design)));
    UnchangedPasses(rules, Contract(rules, data).value);
  }

  // ----- sources -----

  /** A list of texts, naming exactly these columns. */
  ghost predicate Lists(v: Value, names: set<string>) {
    v.List? && (forall x | x in v.items :: x.Str?) && forall name :: name in names <==> Str(name) in v.items
  }

  lemma NamesList(xs: seq<string>, names: set<string>)
    requires ToSet(xs) == names
    ensures Lists(Names(xs), names)
  {
    forall name ensures name in names <==> Str(name) in Names(xs).items {
      if name in names {
        assert name in ToSet(xs);
        var i :| 0 <= i < |xs| && xs[i] == name;
        assert Names(xs).items[i] == Str(name);
      }
      if Str(name) in Names(xs).items {
        var i :| 0 <= i < |xs| && Names(xs).items[i] == Str(name);
        assert xs[i] in ToSet(xs);
      }
    }
  }

  /**
   In an accepted design every derived column lists as its sources exactly the columns its
   expression refers to; there is one at least, and each is selected or derived earlier.
   */
  lemma SourcesAreReferences(rules: Rules, data: Fields, i: nat)
    requires forall names :: ToSet(rules.sorted(names)) == names
    requires Contract(rules, data).Some?
    requires i < |Contract(rules, data).value["derived_columns"].items|
    ensures var out := Contract(rules, data).value; var cs := out["derived_columns"].items;
      && cs[i].Dict? && "derivation_spec" in cs[i].entries && SpecShape(cs[i].entries["derivation_spec"])
      && var names := References(cs[i].entries["derivation_spec"].entries["parameters"]);
         && names != {} && Lists(Get(cs[i].entries, "source_columns"), names)
         && SourcesAccepted(rules, out) && names <= Available(ToSet(Selected(rules, out)), cs[..i])
  {
    ContractUnfolded(rules, data);
    var design := Design(rules, data);
    var kept, selected := design["derived_columns"].items, ToSet(Selected(rules, design));
    QueryIgnoresDerived(rules, design, List(CheckedColumns(rules, kept, selected).value));
    CheckedReferences(rules, kept, selected, i);
    var c := CheckedColumns(rules, kept, selected).value[i].entries;
    var names := References(c["derivation_spec"].entries["parameters"]);
    NamesList(rules.sorted(names), names);
  }

  lemma CheckedReferences(rules: Rules, cs: seq<Value>, selected: set<string>, i: nat)
    requires CheckedColumns(rules, cs, selected).Some? && i < |cs|
    ensures var ds := CheckedColumns(rules, cs, selected).value;
      && ds[i].Dict? && "derivation_spec" in ds[i].entries && SpecShape(ds[i].entries["derivation_spec"])
      && var names := References(ds[i].entries["derivation_spec"].entries["parameters"]);
         && names != {} && Get(ds[i].entries, "source_columns") == Names(rules.sorted(names))
         && names <= Available(selected, ds[..i])
  {
    var ds := CheckedColumns(rules, cs, selected).value;
    CheckedNames(rules, cs, selected);
    assert ColumnAt(rules, cs, i, selected).Some?;
    CheckedColumnRewrites(rules, cs[i].entries, Available(selected, cs[..i]));
    AvailableKept(selected, cs[..i], ds[..i]);
  }
}
