/**
 What normalising makes of the expressions that are not evaluated row by row: the part of a date, a
 bucket's source, and the groups and metrics of an aggregation.
 */
module DerivationForms {
  import opened Values
  import opened DerivationSpec
  import opened DerivationFixpoint
  import opened DerivationMeaning
  import E = Expressions

  lemma BelowAny(rt: Runtime, declared: set<string>, n: nat, row: Row)
    ensures MeansBelow(rt, declared, n, row)
  {
    forall v | Nesting(v) < n ensures Means(rt, declared, v, row) {
      if Normalize(declared, v).Some? { NormalizeMeans(rt, declared, v, row); }
    }
  }

  // ----- sources -----

  /** The source evaluates to the column named, or to what the source means as it is written. */
  ghost predicate SourceRead(rt: Runtime, declared: set<string>, p: Fields, r: Fields, row: Row) {
    && "column" !in r
    && if "column" in p then
         "source" !in p && E.EvaluateField(rt, r, "source", row) == ColumnCell(rt, p["column"], row)
       else
         && ("source" in r <==> "source" in p)
         && ("source" in p ==>
               E.EvaluateField(rt, r, "source", row) == LooseAt(rt, declared, p, "source", false, row))
  }

  /** A parameter is kept, rewritten only as far as it looks like an operation. */
  ghost predicate Kept(declared: set<string>, p: Fields, r: Fields, key: string) {
    (key in r <==> key in p) && (key in p ==> NestedValue(declared, p[key]) == Some(r[key]))
  }

  lemma SourcedRead(rt: Runtime, declared: set<string>, a: Fields, b: Fields, r: Fields, row: Row)
    requires Sourced(declared, a) == Some(b) && Nested(declared, b) == Some(r)
    ensures SourceRead(rt, declared, a, r, row)
  {
    NestedField(declared, b, r, "column");
    NestedField(declared, b, r, "source");
    if "column" in a {
      ColumnField(rt, declared, a["column"], b, r, "source", row);
    } else {
      OperandAtField(declared, a, "source", false, b, "source");
      OperandAtField(declared, a, "source", false, b, "column");
      if "source" in a {
        FieldTaken(declared, a["source"], false, b, r, "source");
        BelowAny(rt, declared, FieldsNesting(a) + 1, row);
        TakenMeans(rt, declared, a, "source", false, r, "source", row, FieldsNesting(a) + 1);
      }
    }
  }

  lemma SourcedKept(declared: set<string>, a: Fields, b: Fields, r: Fields, key: string)
    requires Sourced(declared, a) == Some(b) && Nested(declared, b) == Some(r) && key != "column" && key != "source"
    ensures Kept(declared, a, r, key)
  {
    SourcedOther(declared, a, b, key);
    NestedField(declared, b, r, key);
  }

  /** Aliasing the operator matters to the operator alone. */
  lemma AliasedSource(rt: Runtime, declared: set<string>, p: Fields, a: Fields, r: Fields, row: Row)
    requires AliasOperator(p) == Some(a) && SourceRead(rt, declared, a, r, row)
    ensures SourceRead(rt, declared, p, r, row)
  {
    AliasedField(p, a, "column");
    AliasedField(p, a, "source");
  }

  lemma AliasedKept(declared: set<string>, p: Fields, a: Fields, r: Fields, key: string)
    requires AliasOperator(p) == Some(a) && key != "operator" && Kept(declared, a, r, key)
    ensures Kept(declared, p, r, key)
  {
    AliasedField(p, a, key);
  }

  // ----- date parts and buckets -----

  /** The part may be written under either of two names, and not under both. */
  ghost predicate PartRead(declared: set<string>, p: Fields, r: Fields) {
    && "date_part" !in r && !("date_part" in p && "part" in p)
    && ("part" in r <==> Either(p, "date_part", "part") in p)
    && ("part" in r ==> NestedValue(declared, p[Either(p, "date_part", "part")]) == Some(r["part"]))
  }

  lemma DatePartParts(declared: set<string>, p: Fields, r: Fields) returns (a: Fields, b: Fields, q: Fields)
    requires Rewritten(declared, DatePart, p) == Some(r)
    ensures AliasOperator(p) == Some(a) && Move(a, "date_part", "part") == Some(b)
    ensures Sourced(declared, b) == Some(q) && Nested(declared, q) == Some(r)
  {
    a, q := RewrittenParts(declared, DatePart, p, r);
    b := Move(a, "date_part", "part").value;
  }

  lemma PartMoved(declared: set<string>, p: Fields, a: Fields, b: Fields, r: Fields)
    requires AliasOperator(p) == Some(a) && Move(a, "date_part", "part") == Some(b)
    requires Kept(declared, b, r, "part") && Kept(declared, b, r, "date_part")
    ensures PartRead(declared, p, r)
  {
    MovedField(a, "date_part", "part", b);
    AliasedField(p, a, "date_part");
    AliasedField(p, a, "part");
  }

  lemma SourceMoved(rt: Runtime, declared: set<string>, p: Fields, a: Fields, b: Fields, r: Fields, row: Row)
    requires AliasOperator(p) == Some(a) && Move(a, "date_part", "part") == Some(b)
    requires SourceRead(rt, declared, b, r, row)
    ensures SourceRead(rt, declared, p, r, row)
  {
    MovedOther(a, "date_part", "part", b, "column");
    MovedOther(a, "date_part", "part", b, "source");
    AliasedSource(rt, declared, p, a, r, row);
  }

  lemma DatePartForm(rt: Runtime, declared: set<string>, p: Fields, r: Fields, row: Row)
    requires Rewritten(declared, DatePart, p) == Some(r)
    ensures SourceRead(rt, declared, p, r, row) && PartRead(declared, p, r)
  {
    var a, b, q := DatePartParts(declared, p, r);
    SourcedRead(rt, declared, b, q, r, row);
    SourceMoved(rt, declared, p, a, b, r, row);
    SourcedKept(declared, b, q, r, "part");
    SourcedKept(declared, b, q, r, "date_part");
    PartMoved(declared, p, a, b, r);
  }

  lemma BucketizeParts(declared: set<string>, p: Fields, r: Fields) returns (a: Fields, q: Fields)
    requires Rewritten(declared, Bucketize, p) == Some(r)
    ensures AliasOperator(p) == Some(a) && Sourced(declared, a) == Some(q) && Nested(declared, q) == Some(r)
  {
    a, q := RewrittenParts(declared, Bucketize, p, r);
  }

  lemma BucketizeForm(rt: Runtime, declared: set<string>, p: Fields, r: Fields, row: Row)
    requires Rewritten(declared, Bucketize, p) == Some(r)
    ensures SourceRead(rt, declared, p, r, row)
    ensures Kept(declared, p, r, "bins") && Kept(declared, p, r, "labels")
  {
    var a, q := BucketizeParts(declared, p, r);
    BucketizeRead(rt, declared, p, a, q, r, row);
  }

  lemma BucketizeRead(rt: Runtime, declared: set<string>, p: Fields, a: Fields, q: Fields, r: Fields, row: Row)
    requires AliasOperator(p) == Some(a) && Sourced(declared, a) == Some(q) && Nested(declared, q) == Some(r)
    ensures SourceRead(rt, declared, p, r, row)
    ensures Kept(declared, p, r, "bins") && Kept(declared, p, r, "labels")
  {
    SourcedRead(rt, declared, a, q, r, row);
    AliasedSource(rt, declared, p, a, r, row);
    SourcedKept(declared, a, q, r, "bins");
    SourcedKept(declared, a, q, r, "labels");
    AliasedKept(declared, p, a, r, "bins");
    AliasedKept(declared, p, a, r, "labels");
  }

  // ----- aggregations -----

  /** A rewritten operand is not rewritten again. */
  lemma OperandStays(declared: set<string>, x: Value, u: Value)
    requires Operand(declared, x, false) == Some(u)
    ensures NestedValue(declared, u) == Some(u)
  {
    if x.Dict? {
      NormalizeSettles(declared, x);
    } else {
      SingleKept(declared, x);
    }
  }

  lemma MetricSource(rt: Runtime, declared: set<string>, m: Fields, d: Fields, row: Row)
    requires Sourced(declared, m) == Some(d)
    ensures SourceRead(rt, declared, m, d, row)
  {
    if "column" in m {
      SingleEvaluates(rt, m["column"], row);
    } else {
      OperandAtField(declared, m, "source", false, d, "source");
      OperandAtField(declared, m, "source", false, d, "column");
      if "source" in m { SourceStays(rt, declared, m["source"], d["source"], row); }
    }
  }

  lemma SourceStays(rt: Runtime, declared: set<string>, x: Value, u: Value, row: Row)
    requires Operand(declared, x, false) == Some(u)
    ensures E.Evaluate(rt, u, row) == LooseOperand(rt, declared, x, false, row)
  {
    OperandStays(declared, x, u);
    BelowAny(rt, declared, Nesting(x) + 1, row);
    OperandMeans(rt, declared, x, false, u, u, row, Nesting(x) + 1);
  }

  /** The fields agree besides their sources. */
  ghost predicate SameBesides(m: Fields, d: Fields) {
    forall k | k != "column" && k != "source" :: (k in d <==> k in m) && Get(d, k) == Get(m, k)
  }

  lemma MetricOthers(declared: set<string>, m: Fields, d: Fields)
    requires Sourced(declared, m) == Some(d)
    ensures SameBesides(m, d)
  {
    forall k | k != "column" && k != "source" ensures (k in d <==> k in m) && Get(d, k) == Get(m, k) {
      SourcedOther(declared, m, d, k);
    }
  }

  /** A metric keeps its other fields and reads its source; one that is no object stays as it is. */
  ghost predicate MetricRead(rt: Runtime, declared: set<string>, v: Value, w: Value, row: Row) {
    if !v.Dict? then w == v
    else if "operation" in v.entries then w.Dict?
    else
      w.Dict? && SourceRead(rt, declared, v.entries, w.entries, row) && SameBesides(v.entries, w.entries)
  }

  lemma MetricMeans(rt: Runtime, declared: set<string>, v: Value, u: Value, w: Value, row: Row)
    requires Metric(declared, v) == Some(u) && Normalize(declared, u) == Some(w)
    ensures MetricRead(rt, declared, v, w, row)
  {
    if v.Dict? && "operation" !in v.entries {
      MetricSource(rt, declared, v.entries, u.entries, row);
      MetricOthers(declared, v.entries, u.entries);
      assert "operation" !in u.entries && !IsOperation(u);
    }
  }

  /** The groups evaluate to what they mean as they are written, and every metric reads its source. */
  lemma AggregateForm(rt: Runtime, declared: set<string>, p: Fields, r: Fields, row: Row)
    requires Rewritten(declared, Aggregation, p) == Some(r)
    ensures "group_by" in p && p["group_by"].List? ==>
      "group_by" in r && r["group_by"].List?
      && E.EvaluateAll(rt, r["group_by"].items, row) == LooseItems(rt, declared, p["group_by"].items, false, row)
    ensures "metrics" in p && p["metrics"].List? ==>
      "metrics" in r && MetricsRead(rt, declared, p["metrics"].items, r["metrics"], row)
  {
    var a, q := RewrittenParts(declared, Aggregation, p, r);
    AliasedField(p, a, "group_by");
    AliasedField(p, a, "metrics");
    var b := ItemsAt(declared, a, "group_by", false).value;
    if "group_by" in a && a["group_by"].List? { GroupsForm(rt, declared, a, b, q, r, row); }
    ItemsAtOther(declared, a, "group_by", false, b, "metrics");
    MetricsForm(rt, declared, b, q, r, row);
  }

  lemma GroupsTaken(declared: set<string>, a: Fields, b: Fields)
    requires ItemsAt(declared, a, "group_by", false) == Some(b) && "group_by" in a && a["group_by"].List?
    ensures "group_by" in b && b["group_by"].List?
    ensures Items(declared, a["group_by"].items, false) == Some(b["group_by"].items)
  {}

  lemma GroupsUntouched(declared: set<string>, b: Fields, q: Fields)
    requires MetricsAt(declared, b) == Some(q) && "group_by" in b
    ensures "group_by" in q && q["group_by"] == b["group_by"]
  {}

  lemma GroupsForm(rt: Runtime, declared: set<string>, a: Fields, b: Fields, q: Fields, r: Fields, row: Row)
    requires ItemsAt(declared, a, "group_by", false) == Some(b) && MetricsAt(declared, b) == Some(q)
    requires Nested(declared, q) == Some(r) && "group_by" in a && a["group_by"].List?
    ensures "group_by" in r && r["group_by"].List?
    ensures E.EvaluateAll(rt, r["group_by"].items, row) == LooseItems(rt, declared, a["group_by"].items, false, row)
  {
    GroupsTaken(declared, a, b);
    GroupsUntouched(declared, b, q);
    NestedField(declared, q, r, "group_by");
    GroupsMean(rt, declared, a["group_by"].items, b["group_by"].items, r["group_by"], row);
  }

  lemma GroupsMean(rt: Runtime, declared: set<string>, xs: seq<Value>, ys: seq<Value>, w: Value, row: Row)
    requires Items(declared, xs, false) == Some(ys) && NestedValue(declared, List(ys)) == Some(w)
    ensures w.List? && E.EvaluateAll(rt, w.items, row) == LooseItems(rt, declared, xs, false, row)
  {
    ItemsTaken(declared, xs, false, ys, w);
    BelowAny(rt, declared, Nesting(List(xs)) + 1, row);
    TakenList(rt, declared, List(xs), false, w, row, Nesting(List(xs)) + 1);
  }

  lemma MetricAt(declared: set<string>, xs: seq<Value>, ys: seq<Value>, w: Value, i: nat)
    requires Metrics(declared, xs) == Some(ys) && NestedValue(declared, List(ys)) == Some(w) && i < |xs|
    ensures w.List? && |w.items| == |ys| == |xs|
    ensures Metric(declared, xs[i]) == Some(ys[i]) && Normalize(declared, ys[i]) == Some(w.items[i])
  {}

  lemma MetricsForm(rt: Runtime, declared: set<string>, b: Fields, q: Fields, r: Fields, row: Row)
    requires MetricsAt(declared, b) == Some(q) && Nested(declared, q) == Some(r)
    ensures "metrics" in b && b["metrics"].List? ==>
      "metrics" in r && MetricsRead(rt, declared, b["metrics"].items, r["metrics"], row)
  {
    if "metrics" in b && b["metrics"].List? {
      NestedField(declared, q, r, "metrics");
      MetricsMean(rt, declared, b["metrics"].items, q["metrics"].items, r["metrics"], row);
    }
  }

  ghost predicate MetricsRead(rt: Runtime, declared: set<string>, xs: seq<Value>, w: Value, row: Row) {
    && w.List? && |w.items| == |xs|
    && forall i | 0 <= i < |xs| :: MetricRead(rt, declared, xs[i], w.items[i], row)
  }

  lemma MetricsMean(rt: Runtime, declared: set<string>, xs: seq<Value>, ys: seq<Value>, w: Value, row: Row)
    requires Metrics(declared, xs) == Some(ys) && NestedValue(declared, List(ys)) == Some(w)
    ensures MetricsRead(rt, declared, xs, w, row)
  {
    forall i | 0 <= i < |xs| ensures w.List? && |w.items| == |xs| && MetricRead(rt, declared, xs[i], w.items[i], row) {
      MetricAt(declared, xs, ys, w, i);
      MetricMeans(rt, declared, xs[i], ys[i], w.items[i], row);
    }
  }
}
