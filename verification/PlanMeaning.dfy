/**
 What the check of a processing plan accepts, and which columns it finds: operands and expressions
 with the columns they refer to, single operations, and plans as a chain of column sets.
 */
module PlanMeaning {
  import opened Values
  import opened ProcessingPlan

  // ----- approved columns -----

  /** The source and query columns of the selection, a blank source aside. */
  lemma ApprovedMeans(selection: Selection, c: ColumnKey)
    ensures c in ApprovedColumns(selection) <==>
      c.Named? && (c.name in selection.queryColumns || (c.name != "" && c.name in selection.sourceColumns))
  {}

  // ----- operands -----

  /** The parameter is one of these words. */
  predicate OneOf(p: Fields, key: string, words: seq<string>) {
    key in p && exists i :: 0 <= i < |words| && p[key] == Str(words[i])
  }

  /** The parameter is an operand that refers to these columns. */
  predicate Operand(p: Fields, key: string, columns: set<ColumnKey>) {
    key in p && ValidateOperand(p[key]) == Some(columns)
  }

  /** The parameter lists operands that together refer to these columns. */
  ghost predicate Operands(p: Fields, columns: set<ColumnKey>) {
    && "operands" in p && p["operands"].List? && var items := p["operands"].items;
    && (forall v | v in items :: ValidateOperand(v).Some?)
    && forall c :: c in columns <==> exists v :: v in items && c in ValidateOperand(v).value
  }

  /** `{"column": name}`, `{"literal": value}`, or an operation of one of five names with its parameters. */
  lemma OperandMeans(v: Value, columns: set<ColumnKey>)
    ensures ValidateOperand(v) == Some(columns) <==>
      || (exists name :: name != "" && v == Dict(map["column" := Str(name)]) && columns == {Named(name)})
      || (exists literal :: v == Dict(map["literal" := literal]) && columns == {})
      || (exists name, p :: v == Dict(map["operation" := Str(name), "parameters" := Dict(p)])
            && name in ["compare", "logical", "conditional", "arithmetic", "map_values"]
            && ValidateExpression(name, p) == Some(columns))
  {
    if ValidateOperand(v) == Some(columns) {
      var m := v.entries;
      if m.Keys == {"column"} {
        assert v == Dict(map["column" := Str(m["column"].text)]);
      } else if m.Keys == {"literal"} {
        assert v == Dict(map["literal" := m["literal"]]);
      } else {
        var name, p := m["operation"].text, m["parameters"].entries;
        assert v == Dict(map["operation" := Str(name), "parameters" := Dict(p)]);
      }
    }
    if name :| name != "" && v == Dict(map["column" := Str(name)]) && columns == {Named(name)} {
      assert v.entries.Keys == {"column"};
    }
    if literal :| v == Dict(map["literal" := literal]) && columns == {} {
      assert v.entries.Keys == {"literal"} && "column" !in v.entries;
    }
    if name, p :| v == Dict(map["operation" := Str(name), "parameters" := Dict(p)])
                  && name in ["compare", "logical", "conditional", "arithmetic", "map_values"]
                  && ValidateExpression(name, p) == Some(columns) {
      assert v.entries.Keys == {"operation", "parameters"} && "column" !in v.entries && "literal" !in v.entries;
    }
  }

  lemma OperandsFirst(items: seq<Value>)
    requires items != []
    ensures var head, tail := ValidateOperand(items[0]), OperandsColumns(items[1..]);
      OperandsColumns(items) == if head.Some? && tail.Some? then Some(head.value + tail.value) else None
  {}

  lemma {:induction false} AllOperands(items: seq<Value>)
    ensures OperandsColumns(items).Some? <==> forall v | v in items :: ValidateOperand(v).Some?
    ensures OperandsColumns(items).Some? ==> forall c ::
      c in OperandsColumns(items).value <==> exists v :: v in items && c in ValidateOperand(v).value
    decreases |items|
  {
    if items != [] {
      AllOperands(items[1..]);
      OperandsFirst(items);
      assert forall v :: v in items <==> v == items[0] || v in items[1..];
      if OperandsColumns(items).Some? {
        forall c | c in OperandsColumns(items).value ensures exists v :: v in items && c in ValidateOperand(v).value {
          if c in ValidateOperand(items[0]).value { assert items[0] in items; }
        }
      }
    }
  }

  lemma OperandsMean(p: Fields, columns: set<ColumnKey>)
    requires "operands" in p && p["operands"].List?
    ensures OperandsColumns(p["operands"].items) == Some(columns) <==> Operands(p, columns)
  {
    AllOperands(p["operands"].items);
    var found := OperandsColumns(p["operands"].items);
    if Operands(p, columns) { assert found.value == columns; }
  }

  // ----- expressions -----

  lemma WordMeans(p: Fields, key: string, words: seq<string>, allowed: set<string>)
    requires forall w :: w in allowed <==> w in words
    ensures WordIn(p, key, allowed) <==> OneOf(p, key, words)
  {
    if WordIn(p, key, allowed) {
      var i :| 0 <= i < |words| && words[i] == p[key].text;
      assert p[key] == Str(words[i]);
    }
  }

  lemma OperandAt(p: Fields, key: string)
    ensures OperandColumns(p, key) == if key in p then ValidateOperand(p[key]) else None
  {}

  lemma CompareUnfolded(p: Fields)
    ensures ValidateExpression("compare", p)
         == if WordIn(p, "operator", {"eq", "neq", "gt", "gte", "lt", "lte", "in"}) then
              Union3(OperandColumns(p, "left"), OperandColumns(p, "right"), Some({}))
            else None
  {}

  lemma CompareAccepted(p: Fields, columns: set<ColumnKey>)
    ensures ValidateExpression("compare", p) == Some(columns) <==>
      OneOf(p, "operator", ["eq", "neq", "gt", "gte", "lt", "lte", "in"])
      && exists l, r :: Operand(p, "left", l) && Operand(p, "right", r) && columns == l + r
  {
    CompareUnfolded(p);
    WordMeans(p, "operator", ["eq", "neq", "gt", "gte", "lt", "lte", "in"],
      {"eq", "neq", "gt", "gte", "lt", "lte", "in"});
    BothOperands(p, "left", "right", columns);
  }

  lemma BothOperands(p: Fields, a: string, b: string, columns: set<ColumnKey>)
    ensures Union3(OperandColumns(p, a), OperandColumns(p, b), Some({})) == Some(columns) <==>
      exists l, r :: Operand(p, a, l) && Operand(p, b, r) && columns == l + r
  {
    OperandAt(p, a);
    OperandAt(p, b);
    if Union3(OperandColumns(p, a), OperandColumns(p, b), Some({})) == Some(columns) {
      var l, r := OperandColumns(p, a).value, OperandColumns(p, b).value;
      assert Operand(p, a, l) && Operand(p, b, r) && columns == l + r;
    }
    if l, r :| Operand(p, a, l) && Operand(p, b, r) && columns == l + r { assert l + r + {} == l + r; }
  }

  lemma LogicalAccepted(p: Fields, columns: set<ColumnKey>)
    ensures ValidateExpression("logical", p) == Some(columns) <==>
      OneOf(p, "operator", ["and", "or", "not"]) && Operands(p, columns) && p["operands"].items != []
      && (p["operator"] == Str("not") ==> |p["operands"].items| == 1)
  {
    WordMeans(p, "operator", ["and", "or", "not"], {"and", "or", "not"});
    if "operands" in p && p["operands"].List? { OperandsMean(p, columns); }
  }

  lemma ConditionalAccepted(p: Fields, columns: set<ColumnKey>)
    ensures ValidateExpression("conditional", p) == Some(columns) <==>
      exists c, t, f :: Operand(p, "condition", c) && Operand(p, "true_value", t) && Operand(p, "false_value", f)
        && columns == c + t + f
  {
    OperandAt(p, "condition");
    OperandAt(p, "true_value");
    OperandAt(p, "false_value");
    assert ValidateExpression("conditional", p)
        == Union3(OperandColumns(p, "condition"), OperandColumns(p, "true_value"), OperandColumns(p, "false_value"));
    if ValidateExpression("conditional", p) == Some(columns) {
      var c, t, f := OperandColumns(p, "condition").value, OperandColumns(p, "true_value").value,
        OperandColumns(p, "false_value").value;
      assert Operand(p, "condition", c) && Operand(p, "true_value", t) && Operand(p, "false_value", f);
      assert columns == c + t + f;
    }
  }

  lemma ArithmeticAccepted(p: Fields, columns: set<ColumnKey>)
    ensures ValidateExpression("arithmetic", p) == Some(columns) <==>
      OneOf(p, "operator", ["add", "subtract", "multiply", "divide"])
      && ("on_divide_by_zero" !in p || OneOf(p, "on_divide_by_zero", ["null", "zero", "error"]))
      && Operands(p, columns) && |p["operands"].items| >= 2
  {
    WordMeans(p, "operator", ["add", "subtract", "multiply", "divide"], {"add", "subtract", "multiply", "divide"});
    WordMeans(p, "on_divide_by_zero", ["null", "zero", "error"], {"null", "zero", "error"});
    if "operands" in p && p["operands"].List? { OperandsMean(p, columns); }
  }

  lemma MapValuesUnfolded(p: Fields)
    ensures ValidateExpression("map_values", p)
         == if "mapping" !in p || !p["mapping"].Dict? then None
            else Union3(OperandColumns(p, "source"),
                        if "default" in p then OperandColumns(p, "default") else Some({}), Some({}))
  {}

  lemma MapValuesAccepted(p: Fields, columns: set<ColumnKey>)
    ensures ValidateExpression("map_values", p) == Some(columns) <==>
      "mapping" in p && p["mapping"].Dict?
      && exists s, d :: Operand(p, "source", s) && columns == s + d
           && if "default" in p then Operand(p, "default", d) else d == {}
  {
    MapValuesUnfolded(p);
    OperandAt(p, "source");
    OperandAt(p, "default");
    if ValidateExpression("map_values", p) == Some(columns) {
      var s := OperandColumns(p, "source").value;
      var d := if "default" in p then OperandColumns(p, "default").value else {};
      assert Operand(p, "source", s) && columns == s + d;
    }
    forall s, d: set<ColumnKey> ensures s + d + {} == s + d {}
  }

  // ----- single operations -----

  /** A list of one name at least, none of them blank. */
  predicate NonBlank(p: Fields, key: string) {
    key in p && p[key].List? && p[key].items != [] && forall v | v in p[key].items :: v.Str? && v != Str("")
  }

  /** The names in a list of texts. */
  ghost predicate Lists(p: Fields, key: string, columns: set<ColumnKey>) {
    key in p && p[key].List? && (forall v | v in p[key].items :: v.Str?)
    && forall c :: c in columns <==> c.Named? && Str(c.name) in p[key].items
  }

  lemma NamesMean(p: Fields, key: string)
    requires key in p && p[key].List? && forall v | v in p[key].items :: v.Str?
    ensures Lists(p, key, ToSet(Names(p[key].items)))
  {
    var items := p[key].items;
    forall c ensures c in Names(items) <==> c.Named? && Str(c.name) in items {
      if c in Names(items) {
        var i :| 0 <= i < |items| && Names(items)[i] == c;
        assert items[i] in items && c == Named(items[i].text);
      }
      if c.Named? && Str(c.name) in items {
        var i :| 0 <= i < |items| && items[i] == Str(c.name);
        assert Names(items)[i] == c;
      }
    }
  }

  /** Besides its sources an operation has the parameters its kind asks for. */
  predicate Fits(op: Operation) {
    var p := op.parameters;
    match op.kind
    case Cast => op.sources != [] && OneOf(p, "data_type", ["string", "integer", "number", "date", "datetime"])
    case FillMissing =>
      op.sources != [] && OneOf(p, "strategy", ["median", "mode", "zero", "drop_row", "keep_null"])
    case DeriveDatePart =>
      && |op.sources| == 1 && HasTarget(op) && OneOf(p, "part", ["year", "month", "day", "weekday", "hour"])
      && ("timezone" !in p || OneOf(p, "timezone", ["UTC", "Asia/Seoul"]))
    case Bucketize =>
      && |op.sources| == 1 && HasTarget(op) && "bins" in p && p["bins"].List? && |p["bins"].items| >= 2
      && forall v | v in p["bins"].items :: v.Int? || v.Float? || v.Bool?
    case Sort => "direction" !in p || OneOf(p, "direction", ["asc", "desc"])
    case SelectColumns => NonBlank(p, "columns")
    case Deduplicate => true
    case WindowAggregate => true
    case Aggregate => true
    case Compare => Derives(op, "compare")
    case Logical => Derives(op, "logical")
    case Conditional => Derives(op, "conditional")
    case Arithmetic => Derives(op, "arithmetic")
    case MapValues => Derives(op, "map_values")
  }

  /** A derived column lists as sources exactly the columns its expression refers to. */
  predicate Derives(op: Operation, name: string) {
    op.sources != [] && HasTarget(op) && ValidateExpression(name, op.parameters) == Some(ToSet(op.sources))
  }

  /** The parameters an operation may have. */
  function Parameters(kind: Kind): seq<string> {
    match kind
    case Cast => ["data_type"]
    case FillMissing => ["strategy"]
    case Deduplicate => []
    case DeriveDatePart => ["part", "timezone"]
    case Bucketize => ["bins", "labels"]
    case Compare => ["left", "operator", "right"]
    case Logical => ["operands", "operator"]
    case Conditional => ["condition", "true_value", "false_value"]
    case Arithmetic => ["operands", "operator", "on_divide_by_zero"]
    case MapValues => ["source", "mapping", "default"]
    case WindowAggregate => ["group_by", "metrics"]
    case Aggregate => ["group_by", "metrics"]
    case Sort => ["direction"]
    case SelectColumns => ["columns"]
  }

  lemma ParametersMean(kind: Kind, k: string)
    ensures k in AllowedParameters(kind) <==> k in Parameters(kind)
  {}

  lemma KeysMean(op: Operation)
    ensures op.parameters.Keys <= AllowedParameters(op.kind)
       <==> forall k | k in op.parameters :: k in Parameters(op.kind)
  {
    forall k ensures k in AllowedParameters(op.kind) <==> k in Parameters(op.kind) { ParametersMean(op.kind, k); }
    assert forall k :: k in op.parameters.Keys <==> k in op.parameters;
  }

  lemma WordsMean(p: Fields)
    ensures WordIn(p, "data_type", {"string", "integer", "number", "date", "datetime"})
       <==> OneOf(p, "data_type", ["string", "integer", "number", "date", "datetime"])
    ensures WordIn(p, "strategy", {"median", "mode", "zero", "drop_row", "keep_null"})
       <==> OneOf(p, "strategy", ["median", "mode", "zero", "drop_row", "keep_null"])
    ensures WordIn(p, "part", {"year", "month", "day", "weekday", "hour"})
       <==> OneOf(p, "part", ["year", "month", "day", "weekday", "hour"])
    ensures WordIn(p, "timezone", {"UTC", "Asia/Seoul"}) <==> OneOf(p, "timezone", ["UTC", "Asia/Seoul"])
    ensures WordIn(p, "direction", {"asc", "desc"}) <==> OneOf(p, "direction", ["asc", "desc"])
  {
    WordMeans(p, "data_type", ["string", "integer", "number", "date", "datetime"],
      {"string", "integer", "number", "date", "datetime"});
    WordMeans(p, "strategy", ["median", "mode", "zero", "drop_row", "keep_null"],
      {"median", "mode", "zero", "drop_row", "keep_null"});
    WordMeans(p, "part", ["year", "month", "day", "weekday", "hour"], {"year", "month", "day", "weekday", "hour"});
    WordMeans(p, "timezone", ["UTC", "Asia/Seoul"], {"UTC", "Asia/Seoul"});
    WordMeans(p, "direction", ["asc", "desc"], {"asc", "desc"});
  }

  /** An operation is accepted when it has what its kind asks for and no other parameter. */
  lemma AcceptedMeans(op: Operation)
    ensures OperationAccepted(op) <==> Fits(op) && forall k | k in op.parameters :: k in Parameters(op.kind)
  {
    KeysMean(op);
    WordsMean(op.parameters);
  }

  // ----- groups -----

  /** The text of a metric's entry, blank when there is none. */
  function Entry(rt: Runtime, m: Fields, key: string): string {
    if key !in m || !Truthy(m[key]) then "" else match m[key] case Str(s) => s case v => rt.str(v)
  }

  /** A metric reads an available column with one of six functions and has a target. */
  predicate Measured(rt: Runtime, m: Value, available: set<ColumnKey>) {
    && m.Dict? && Named(Entry(rt, m.entries, "column")) in available && Entry(rt, m.entries, "target") != ""
    && Entry(rt, m.entries, "function") in ["sum", "count", "count_distinct", "avg", "min", "max"]
  }

  /** Groups by available columns, with metrics over available columns. */
  predicate Grouped(rt: Runtime, p: Fields, available: set<ColumnKey>) {
    && NonBlank(p, "group_by") && (forall v | v in p["group_by"].items :: Named(v.text) in available)
    && "metrics" in p && p["metrics"].List? && p["metrics"].items != []
    && forall m | m in p["metrics"].items :: Measured(rt, m, available)
  }

  lemma MetricMeans(rt: Runtime, m: Value, available: set<ColumnKey>)
    ensures MetricAccepted(rt, m, available) <==> Measured(rt, m, available)
  {}

  lemma GroupedMeans(rt: Runtime, op: Operation, available: set<ColumnKey>)
    ensures AggregationAccepted(rt, op, available) <==> Grouped(rt, op.parameters, available)
  {
    var p := op.parameters;
    if IsNameList(p, "group_by") {
      NamesMean(p, "group_by");
      var names := ToSet(Names(p["group_by"].items));
      assert names <= available <==> forall v | v in p["group_by"].items :: Named(v.text) in available by {
        assert forall v | v in p["group_by"].items :: Named(v.text) in names;
        assert forall c | c in names :: Str(c.name) in p["group_by"].items;
      }
    }
    if "metrics" in p && p["metrics"].List? {
      forall m | m in p["metrics"].items ensures MetricAccepted(rt, m, available) <==> Measured(rt, m, available) {
        MetricMeans(rt, m, available);
      }
    }
  }

  // ----- one step of the check -----

  /** The targets of the metrics. */
  ghost predicate Targets(rt: Runtime, p: Fields, columns: set<ColumnKey>) {
    && "metrics" in p && p["metrics"].List? && (forall m | m in p["metrics"].items :: m.Dict?)
    && forall c :: c in columns <==>
         exists m :: m in p["metrics"].items && m.Dict? && c == Named(Entry(rt, m.entries, "target"))
  }

  lemma TargetsMean(rt: Runtime, p: Fields)
    requires "metrics" in p && p["metrics"].List? && forall m | m in p["metrics"].items :: m.Dict?
    ensures Targets(rt, p, MetricTargets(rt, p["metrics"].items))
  {
    forall m | m in p["metrics"].items ensures MetricText(rt, m, "target") == Entry(rt, m.entries, "target") {}
  }

  /** The columns after an accepted operation. */
  ghost predicate Leaves(rt: Runtime, op: Operation, available: set<ColumnKey>, after: set<ColumnKey>) {
    match op.kind
    case Aggregate =>
      exists groups, targets :: Lists(op.parameters, "group_by", groups) && Targets(rt, op.parameters, targets)
        && after == groups + targets
    case WindowAggregate =>
      exists targets :: Targets(rt, op.parameters, targets) && after == available + targets
    case SelectColumns => Lists(op.parameters, "columns", after)
    case _ => after == if HasTarget(op) then available + {op.target.value} else available
  }

  /** A metric has this target. */
  predicate IsTarget(rt: Runtime, metrics: seq<Value>, target: ColumnKey) {
    exists m :: m in metrics && m.Dict? && target == Named(Entry(rt, m.entries, "target"))
  }

  /** The operation may follow where these columns are available. */
  ghost predicate Follows(rt: Runtime, op: Operation, available: set<ColumnKey>) {
    && (forall c | c in op.sources :: c in available)
    && Fits(op) && (forall k | k in op.parameters :: k in Parameters(op.kind))
    && (op.kind.Aggregate? || op.kind.WindowAggregate? ==> Grouped(rt, op.parameters, available))
    && (op.kind.WindowAggregate? ==> HasTarget(op) && IsTarget(rt, op.parameters["metrics"].items, op.target.value))
    && (op.kind.SelectColumns? ==> forall v | v in op.parameters["columns"].items :: Named(v.text) in available)
  }

  lemma SelectMeans(rt: Runtime, op: Operation, available: set<ColumnKey>)
    requires op.kind.SelectColumns? && OperationAccepted(op)
    ensures Fits(op) && Lists(op.parameters, "columns", ToSet(Names(op.parameters["columns"].items)))
    ensures ToSet(Names(op.parameters["columns"].items)) <= available
       <==> forall v | v in op.parameters["columns"].items :: Named(v.text) in available
  {
    AcceptedMeans(op);
    NamesMean(op.parameters, "columns");
    var names := ToSet(Names(op.parameters["columns"].items));
    assert forall v | v in op.parameters["columns"].items :: Named(v.text) in names;
    assert forall c | c in names :: Str(c.name) in op.parameters["columns"].items;
  }

  /** The check accepts exactly what may follow, and finds the columns it leaves. */
  lemma CheckedMeans(rt: Runtime, op: Operation, available: set<ColumnKey>)
    ensures CheckOperation(rt, op, available).Available? <==> Follows(rt, op, available)
    ensures CheckOperation(rt, op, available).Available? ==>
      Leaves(rt, op, available, CheckOperation(rt, op, available).columns)
  {
    AcceptedMeans(op);
    if op.kind.Aggregate? || op.kind.WindowAggregate? {
      GroupedMeans(rt, op, available);
      if Grouped(rt, op.parameters, available) {
        NamesMean(op.parameters, "group_by");
        TargetsMean(rt, op.parameters);
      }
    } else if op.kind.SelectColumns? && OperationAccepted(op) {
      SelectMeans(rt, op, available);
    }
  }

  // ----- whole plans -----

  /** From one set of columns to the next, each operation may follow. */
  ghost predicate Chain(rt: Runtime, operations: seq<Operation>, columns: seq<set<ColumnKey>>) {
    && |columns| == |operations| + 1
    && forall i | 0 <= i < |operations| ::
         Follows(rt, operations[i], columns[i]) && Leaves(rt, operations[i], columns[i], columns[i + 1])
  }

  /** An accepted plan is a chain of operations that may follow, from the columns approved to those found. */
  lemma {:induction false} AcceptedChain(rt: Runtime, operations: seq<Operation>, available: set<ColumnKey>)
    returns (columns: seq<set<ColumnKey>>)
    requires CheckOperations(rt, operations, available).Available?
    ensures Chain(rt, operations, columns) && columns[0] == available
    ensures columns[|operations|] == CheckOperations(rt, operations, available).columns
    decreases |operations|
  {
    columns := [available];
    if operations != [] {
      CheckedMeans(rt, operations[0], available);
      var next := CheckOperation(rt, operations[0], available).columns;
      var rest := AcceptedChain(rt, operations[1..], next);
      columns := [available] + rest;
      forall i | 0 <= i < |operations|
        ensures Follows(rt, operations[i], columns[i]) && Leaves(rt, operations[i], columns[i], columns[i + 1])
      {
        if i > 0 { assert operations[i] == operations[1..][i - 1] && Follows(rt, operations[1..][i - 1], rest[i - 1]); }
      }
    }
  }

  /** A rejected plan has a first operation that may not follow. */
  lemma {:induction false} RejectedChain(rt: Runtime, operations: seq<Operation>, available: set<ColumnKey>)
    returns (n: nat, columns: seq<set<ColumnKey>>)
    requires CheckOperations(rt, operations, available).Rejected?
    ensures n < |operations| && Chain(rt, operations[..n], columns) && columns[0] == available
    ensures !Follows(rt, operations[n], columns[n])
    decreases |operations|
  {
    n, columns := 0, [available];
    CheckedMeans(rt, operations[0], available);
    if CheckOperation(rt, operations[0], available).Available? {
      var m, rest := RejectedChain(rt, operations[1..], CheckOperation(rt, operations[0], available).columns);
      n, columns := m + 1, [available] + rest;
      forall i | 0 <= i < n
        ensures Follows(rt, operations[i], columns[i]) && Leaves(rt, operations[i], columns[i], columns[i + 1])
      {
        if i > 0 {
          assert operations[i] == operations[1..][..m][i - 1];
          assert Follows(rt, operations[1..][..m][i - 1], rest[i - 1]);
        }
      }
    }
  }
}
