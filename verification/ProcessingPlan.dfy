/**
 The static check of a processing plan: every operation may read only columns that the
 approved selection supplies or that an earlier operation creates.
 Follows agent_runtime/data_processing/plan.py.
 */
module ProcessingPlan {
  import opened Values

  datatype Kind =
    | Cast | FillMissing | Deduplicate | DeriveDatePart | Bucketize
    | Compare | Logical | Conditional | Arithmetic | MapValues
    | WindowAggregate | Aggregate | Sort | SelectColumns

  /** An operation; a parsed plan names its sources and its target by texts. */
  datatype Operation = Operation(
    kind: Kind,
    sources: seq<ColumnKey>,
    target: Option<ColumnKey>,
    parameters: Fields)

  /** The two places where an approved selection names executable columns. */
  datatype Selection = Selection(sourceColumns: seq<string>, queryColumns: seq<string>)

  datatype PlanError =
    | NoSourceColumns
    | UnavailableColumns(columns: set<ColumnKey>)
    | InvalidOperation
    | InvalidGroupBy
    | InvalidMetric
    | InvalidWindowTarget
    | InvalidSelect

  datatype Checked = Available(columns: set<ColumnKey>) | Rejected(error: PlanError)

  function ToSet(columns: seq<ColumnKey>): set<ColumnKey> { set c | c in columns }

  function ApprovedColumns(selection: Selection): set<ColumnKey> {
    (set c | c in selection.sourceColumns && c != "" :: Named(c)) + (set c | c in selection.queryColumns :: Named(c))
  }

  predicate HasTarget(op: Operation) { op.target.Some? && op.target.value != Named("") }

  predicate IsExpression(kind: Kind) {
    kind.Compare? || kind.Logical? || kind.Conditional? || kind.Arithmetic? || kind.MapValues?
  }

  predicate IsRowWise(kind: Kind) { IsExpression(kind) || kind.DeriveDatePart? || kind.Bucketize? }

  predicate IsDerived(kind: Kind) { IsRowWise(kind) || kind.WindowAggregate? }

  function ExpressionName(kind: Kind): string
    requires IsExpression(kind)
  {
    match kind
    case Compare => "compare"
    case Logical => "logical"
    case Conditional => "conditional"
    case Arithmetic => "arithmetic"
    case MapValues => "map_values"
  }

  const EXPRESSION_NAMES := {"compare", "logical", "conditional", "arithmetic", "map_values"}

  /** `parameters.get(key) in allowed` for a parameter that must be one of a few words. */
  predicate WordIn(parameters: Fields, key: string, allowed: set<string>) {
    key in parameters && parameters[key].Str? && parameters[key].text in allowed
  }

  /** The same with a default used when the key is absent. */
  predicate WordOrDefaultIn(parameters: Fields, key: string, allowed: set<string>) {
    key !in parameters || WordIn(parameters, key, allowed)
  }

  // ----- expressions -----

  /** `parameters.get(key)`: an absent operand is None and is rejected. */
  function OperandColumns(parameters: Fields, key: string): (r: Option<set<ColumnKey>>)
    ensures r.Some? ==> key in parameters
    decreases Dict(parameters), 0
  {
    if key in parameters then ValidateOperand(parameters[key]) else None
  }

  function OperandsColumns(items: seq<Value>): Option<set<ColumnKey>>
    decreases items, 0
  {
    if items == [] then Some({})
    else
      match (ValidateOperand(items[0]), OperandsColumns(items[1..]))
      case (Some(head), Some(tail)) => Some(head + tail)
      case _ => None
  }

  function Union3(
    a: Option<set<ColumnKey>>, b: Option<set<ColumnKey>>, c: Option<set<ColumnKey>>): Option<set<ColumnKey>>
  {
    if a.Some? && b.Some? && c.Some? then Some(a.value + b.value + c.value) else None
  }

  /** The columns an expression refers to, or None when its contract is broken. */
  function ValidateExpression(name: string, parameters: Fields): Option<set<ColumnKey>>
    decreases Dict(parameters), 1
  {
    if name == "compare" then
      if !WordIn(parameters, "operator", {"eq", "neq", "gt", "gte", "lt", "lte", "in"}) then None
      else Union3(OperandColumns(parameters, "left"), OperandColumns(parameters, "right"), Some({}))
    else if name == "logical" then
      if !WordIn(parameters, "operator", {"and", "or", "not"}) then None
      else if "operands" !in parameters || !parameters["operands"].List? then None
      else
        var operands := parameters["operands"].items;
        if operands == [] || (parameters["operator"].text == "not" && |operands| != 1) then None
        else OperandsColumns(operands)
    else if name == "conditional" then
      Union3(OperandColumns(parameters, "condition"),
             OperandColumns(parameters, "true_value"),
             OperandColumns(parameters, "false_value"))
    else if name == "arithmetic" then
      if !WordIn(parameters, "operator", {"add", "subtract", "multiply", "divide"}) then None
      else if "operands" !in parameters || !parameters["operands"].List? then None
      else if |parameters["operands"].items| < 2 then None
      else if !WordOrDefaultIn(parameters, "on_divide_by_zero", {"null", "zero", "error"}) then None
      else OperandsColumns(parameters["operands"].items)
    else
      if "mapping" !in parameters || !parameters["mapping"].Dict? then None
      else
        Union3(OperandColumns(parameters, "source"),
               if "default" in parameters then OperandColumns(parameters, "default") else Some({}),
               Some({}))
  }

  function ValidateOperand(v: Value): Option<set<ColumnKey>>
    decreases v, 2
  {
    if !v.Dict? then None
    else if v.entries.Keys == {"column"} && v.entries["column"].Str? && v.entries["column"].text != "" then
      Some({Named(v.entries["column"].text)})
    else if v.entries.Keys == {"literal"} then Some({})
    else if v.entries.Keys == {"operation", "parameters"} && v.entries["parameters"].Dict? then
      if WordIn(v.entries, "operation", EXPRESSION_NAMES) then
        ValidateExpression(v.entries["operation"].text, v.entries["parameters"].entries)
      else None
    else None
  }

  // ----- single operations -----

  /** left/right of an arithmetic or logical operation become its operands list. */
  function NormalizeParameters(op: Operation): Operation {
    if (op.kind.Arithmetic? || op.kind.Logical?) && "operands" !in op.parameters then
      var left, right := Get(op.parameters, "left"), Get(op.parameters, "right");
      var rest := op.parameters - {"left", "right"};
      op.(parameters :=
        if left != Null && right != Null then rest["operands" := List([left, right])] else rest)
    else op
  }

  function AllowedParameters(kind: Kind): set<string> {
    match kind
    case Cast => {"data_type"}
    case FillMissing => {"strategy"}
    case Deduplicate => {}
    case DeriveDatePart => {"part", "timezone"}
    case Bucketize => {"bins", "labels"}
    case Compare => {"operator", "left", "right"}
    case Logical => {"operator", "operands"}
    case Conditional => {"condition", "true_value", "false_value"}
    case Arithmetic => {"operator", "operands", "on_divide_by_zero"}
    case MapValues => {"source", "mapping", "default"}
    case WindowAggregate => {"group_by", "metrics"}
    case Aggregate => {"group_by", "metrics"}
    case Sort => {"direction"}
    case SelectColumns => {"columns"}
  }

  /** `_string_list`: a non-empty list of non-empty strings. */
  predicate IsNameList(parameters: Fields, key: string) {
    && key in parameters && parameters[key].List? && parameters[key].items != []
    && forall v | v in parameters[key].items :: v.Str? && v.text != ""
  }

  function Names(items: seq<Value>): seq<ColumnKey>
    requires forall v | v in items :: v.Str?
  {
    seq(|items|, i requires 0 <= i < |items| => Named(items[i].text))
  }

  predicate OperationAccepted(op: Operation) {
    && op.parameters.Keys <= AllowedParameters(op.kind)
    && match op.kind
       case Cast =>
         op.sources != [] && WordIn(op.parameters, "data_type", {"string", "integer", "number", "date", "datetime"})
       case FillMissing =>
         op.sources != [] && WordIn(op.parameters, "strategy", {"median", "mode", "zero", "drop_row", "keep_null"})
       case DeriveDatePart =>
         && |op.sources| == 1 && HasTarget(op)
         && WordIn(op.parameters, "part", {"year", "month", "day", "weekday", "hour"})
         && WordOrDefaultIn(op.parameters, "timezone", {"UTC", "Asia/Seoul"})
       case Bucketize =>
         && |op.sources| == 1 && HasTarget(op)
         && "bins" in op.parameters && op.parameters["bins"].List? && |op.parameters["bins"].items| >= 2
         && forall v | v in op.parameters["bins"].items :: IsNumber(v)
       case Sort => WordOrDefaultIn(op.parameters, "direction", {"asc", "desc"})
       case SelectColumns => IsNameList(op.parameters, "columns")
       case Deduplicate => true
       case WindowAggregate => true
       case Aggregate => true
       case _ =>
         && op.sources != [] && HasTarget(op)
         && ValidateExpression(ExpressionName(op.kind), op.parameters) == Some(ToSet(op.sources))
  }

  // ----- aggregation contracts -----

  const METRIC_FUNCTIONS := {"sum", "count", "count_distinct", "avg", "min", "max"}

  /** `str(metric.get(key) or "")`. */
  function MetricText(rt: Runtime, metric: Value, key: string): string
    requires metric.Dict?
  {
    if Truthy(Get(metric.entries, key)) then Text(rt, metric.entries[key]) else ""
  }

  predicate MetricAccepted(rt: Runtime, metric: Value, available: set<ColumnKey>) {
    && metric.Dict?
    && Named(MetricText(rt, metric, "column")) in available
    && MetricText(rt, metric, "function") in METRIC_FUNCTIONS
    && MetricText(rt, metric, "target") != ""
  }

  function MetricTargets(rt: Runtime, metrics: seq<Value>): set<ColumnKey>
    requires forall m | m in metrics :: m.Dict?
  {
    set m | m in metrics :: Named(MetricText(rt, m, "target"))
  }

  predicate AggregationAccepted(rt: Runtime, op: Operation, available: set<ColumnKey>) {
    && IsNameList(op.parameters, "group_by")
    && ToSet(Names(op.parameters["group_by"].items)) <= available
    && "metrics" in op.parameters && op.parameters["metrics"].List? && op.parameters["metrics"].items != []
    && forall m | m in op.parameters["metrics"].items :: MetricAccepted(rt, m, available)
  }

  // ----- whole plans -----

  /** Columns available after one (already normalised) operation. */
  function CheckOperation(rt: Runtime, op: Operation, available: set<ColumnKey>): Checked {
    if !(ToSet(op.sources) <= available) then Rejected(UnavailableColumns(ToSet(op.sources) - available))
    else if !OperationAccepted(op) then Rejected(InvalidOperation)
    else if op.kind.Aggregate? || op.kind.WindowAggregate? then
      if !IsNameList(op.parameters, "group_by") then Rejected(InvalidGroupBy)
      else if !AggregationAccepted(rt, op, available) then Rejected(InvalidMetric)
      else
        var targets := MetricTargets(rt, op.parameters["metrics"].items);
        if op.kind.Aggregate? then
          Available(ToSet(Names(op.parameters["group_by"].items)) + targets)
        else if !HasTarget(op) || op.target.value !in targets then Rejected(InvalidWindowTarget)
        else Available(available + targets)
    else if op.kind.SelectColumns? then
      var columns := ToSet(Names(op.parameters["columns"].items));
      if !(columns <= available) then Rejected(InvalidSelect) else Available(columns)
    else if HasTarget(op) then Available(available + {op.target.value})
    else Available(available)
  }

  /** Columns available after a list of operations, or the first rejection. */
  function CheckOperations(rt: Runtime, operations: seq<Operation>, available: set<ColumnKey>): Checked
    decreases |operations|
  {
    if operations == [] then Available(available)
    else
      match CheckOperation(rt, operations[0], available)
      case Rejected(e) => Rejected(e)
      case Available(next) => CheckOperations(rt, operations[1..], next)
  }

  function NormalizeAll(operations: seq<Operation>): seq<Operation> {
    seq(|operations|, i requires 0 <= i < |operations| => NormalizeParameters(operations[i]))
  }

  /** The columns a plan leaves available; the operations come back with normalised parameters. */
  method ValidateProcessingOperations(rt: Runtime, operations: seq<Operation>, selection: Selection)
    returns (checked: Checked, normalized: seq<Operation>)
    ensures checked ==
      if ApprovedColumns(selection) == {} then Rejected(NoSourceColumns)
      else CheckOperations(rt, NormalizeAll(operations), ApprovedColumns(selection))
    ensures checked.Available? ==> normalized == NormalizeAll(operations)
  {
    var available := ApprovedColumns(selection);
    normalized := [];
    if available == {} { return Rejected(NoSourceColumns), normalized; }
    ghost var all := NormalizeAll(operations);
    var i := 0;
    while i < |operations|
      invariant 0 <= i <= |operations|
      invariant normalized == all[..i]
      invariant CheckOperations(rt, all, ApprovedColumns(selection)) == CheckOperations(rt, all[i..], available)
    {
      var op := NormalizeParameters(operations[i]);
      assert all[i..][0] == op && all[i..][1..] == all[i + 1..];
      var next := CheckOperation(rt, op, available);
      if next.Rejected? { return next, normalized; }
      available := next.columns;
      normalized := normalized + [op];
      i := i + 1;
    }
    checked := Available(available);
  }
}
