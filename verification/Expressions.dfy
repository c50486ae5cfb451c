/**
 The recursive expression evaluator and its agreement with the static check: an accepted
 expression never misses a key, and reads no column outside its checked reference set.
 Follows `_evaluate_expression`, `_compare` and `_arithmetic` of
 agent_runtime/data_processing/processor.py.
 */
module Expressions {
  import opened Values
  import opened ProcessingPlan

  function Compare(left: Value, right: Value, operator: string): Outcome<bool> {
    if operator == "eq" then Ok(PyEqual(left, right))
    else if operator == "neq" then Ok(!PyEqual(left, right))
    else if operator == "in" then Ok(right.List? && exists v | v in right.items :: PyEqual(left, v))
    else if left.Null? || right.Null? then Ok(false)
    else
      match (PyLess(left, right), PyLess(right, left))
      case (Some(less), Some(greater)) =>
        if operator == "gt" then Ok(greater)
        else if operator == "gte" then Ok(greater || PyEqual(left, right))
        else if operator == "lt" then Ok(less)
        else if operator == "lte" then Ok(less || PyEqual(left, right))
        else Err(MissingKey(operator))
      case _ => Ok(false)
  }

  /** `_numeric_operand`: None for anything that is not a number or numeric text. */
  function NumericOperand(rt: Runtime, v: Value): Option<real> {
    match v
    case Int(_) => Some(AsReal(v))
    case Float(_) => Some(AsReal(v))
    case Str(s) => rt.parseFloat(s)
    case _ => None
  }

  datatype Progress = Continue(result: real) | Stop(outcome: Outcome<Value>)

  /** One operand of an arithmetic operation; a zero divisor stops it by the given policy. */
  function Step(result: real, value: real, operator: string, zeroPolicy: string): Progress {
    if operator == "add" then Continue(result + value)
    else if operator == "subtract" then Continue(result - value)
    else if operator == "multiply" then Continue(result * value)
    else if value != 0.0 then Continue(result / value)
    else if zeroPolicy == "error" then Stop(Err(DivisionByZero))
    else Stop(Ok(if zeroPolicy == "zero" then Float(0.0) else Null))
  }

  function Fold(result: real, rest: seq<real>, operator: string, zeroPolicy: string): Outcome<Value>
    decreases |rest|
  {
    if rest == [] then Ok(Float(result))
    else
      match Step(result, rest[0], operator, zeroPolicy)
      case Continue(next) => Fold(next, rest[1..], operator, zeroPolicy)
      case Stop(outcome) => outcome
  }

  method ArithmeticLoop(numeric: seq<real>, operator: string, zeroPolicy: string) returns (r: Outcome<Value>)
    requires numeric != []
    ensures r == Fold(numeric[0], numeric[1..], operator, zeroPolicy)
  {
    var result := numeric[0];
    var i := 1;
    while i < |numeric|
      invariant 1 <= i <= |numeric|
      invariant Fold(numeric[0], numeric[1..], operator, zeroPolicy)
             == Fold(result, numeric[i..], operator, zeroPolicy)
    {
      assert numeric[i..][0] == numeric[i] && numeric[i..][1..] == numeric[i + 1..];
      var progress := Step(result, numeric[i], operator, zeroPolicy);
      if progress.Stop? { return progress.outcome; }
      result := progress.result;
      i := i + 1;
    }
    r := Ok(Float(result));
  }

  function EvaluateAll(rt: Runtime, items: seq<Value>, row: Row): (r: Outcome<seq<Value>>)
    ensures r.Ok? ==> |r.value| == |items|
    decreases items, 0
  {
    if items == [] then Ok([])
    else
      var head :- Evaluate(rt, items[0], row);
      var tail :- EvaluateAll(rt, items[1..], row);
      Ok([head] + tail)
  }

  function EvaluateField(rt: Runtime, parameters: Fields, key: string, row: Row): Outcome<Value>
    decreases Dict(parameters), 0
  {
    var operand :- Field(parameters, key);
    Evaluate(rt, operand, row)
  }

  function EvaluateOperands(rt: Runtime, parameters: Fields, row: Row): (r: Outcome<seq<Value>>)
    decreases Dict(parameters), 0
  {
    var operands :- Field(parameters, "operands");
    if operands.List? then EvaluateAll(rt, operands.items, row) else Err(BadExpression)
  }

  function NumericAll(rt: Runtime, values: seq<Value>): seq<Option<real>> {
    seq(|values|, i requires 0 <= i < |values| => NumericOperand(rt, values[i]))
  }

  /** A logical operation over the values of its operands. */
  function Connect(values: seq<Value>, operator: Value): Outcome<Value> {
    if operator == Str("not") then
      if values == [] then Err(BadExpression) else Ok(Bool(!Truthy(values[0])))
    else if operator == Str("and") then Ok(Bool(forall v | v in values :: Truthy(v)))
    else Ok(Bool(exists v | v in values :: Truthy(v)))
  }

  /** An arithmetic operation over the values of its operands. */
  function Calculate(rt: Runtime, values: seq<Value>, parameters: Fields): Outcome<Value> {
    var numeric := NumericAll(rt, values);
    if exists n | n in numeric :: n.None? then Ok(Null)
    else if numeric == [] then Err(BadExpression)
    else
      var operator :- Field(parameters, "operator");
      var policy := if "on_divide_by_zero" in parameters then Text(rt, parameters["on_divide_by_zero"]) else "null";
      var reals := seq(|numeric|, i requires 0 <= i < |numeric| => assert numeric[i] in numeric; numeric[i].value);
      Fold(reals[0], reals[1..], Text(rt, operator), policy)
  }

  function EvaluateOperation(rt: Runtime, name: string, parameters: Fields, row: Row): Outcome<Value>
    decreases Dict(parameters), 1
  {
    if name == "compare" then
      var left :- EvaluateField(rt, parameters, "left", row);
      var right :- EvaluateField(rt, parameters, "right", row);
      var operator :- Field(parameters, "operator");
      var result :- Compare(left, right, Text(rt, operator));
      Ok(Bool(result))
    else if name == "logical" then
      var values :- EvaluateOperands(rt, parameters, row);
      var operator :- Field(parameters, "operator");
      Connect(values, operator)
    else if name == "conditional" then
      var condition :- EvaluateField(rt, parameters, "condition", row);
      EvaluateField(rt, parameters, if Truthy(condition) then "true_value" else "false_value", row)
    else if name == "arithmetic" then
      var values :- EvaluateOperands(rt, parameters, row);
      Calculate(rt, values, parameters)
    else if name == "map_values" then
      var source :- EvaluateField(rt, parameters, "source", row);
      var mapping :- Field(parameters, "mapping");
      if !mapping.Dict? then Err(BadExpression)
      else if Text(rt, source) in mapping.entries then Ok(mapping.entries[Text(rt, source)])
      else if "default" in parameters then EvaluateField(rt, parameters, "default", row)
      else Ok(Null)
    else Err(BadExpression)
  }

  function Evaluate(rt: Runtime, expression: Value, row: Row): Outcome<Value>
    decreases expression, 2
  {
    if !expression.Dict? then Err(BadExpression)
    else if expression.entries.Keys == {"column"} then Ok(Get(row, Named(Text(rt, expression.entries["column"]))))
    else if expression.entries.Keys == {"literal"} then Ok(expression.entries["literal"])
    else
      var name := Get(expression.entries, "operation");
      var parameters := Get(expression.entries, "parameters");
      if !name.Str? || (Truthy(parameters) && !parameters.Dict?) then Err(BadExpression)
      else if "parameters" in expression.entries && parameters.Dict? then
        EvaluateOperation(rt, name.text, parameters.entries, row)
      else EvaluateEmpty(name.text)
  }

  /** An expression without parameters fails on the first parameter it reads. */
  function EvaluateEmpty(name: string): Outcome<Value> {
    if name == "compare" then Err(MissingKey("left"))
    else if name == "logical" || name == "arithmetic" then Err(MissingKey("operands"))
    else if name == "conditional" then Err(MissingKey("condition"))
    else if name == "map_values" then Err(MissingKey("source"))
    else Err(BadExpression)
  }

  // ----- the check is sound -----

  /** The only failure an accepted expression can have is its own divide-by-zero policy. */
  predicate Sound<T>(r: Outcome<T>) { r.Err? ==> r.error == DivisionByZero }

  lemma {:induction false} OperandSound(rt: Runtime, v: Value, row: Row)
    requires ValidateOperand(v).Some?
    ensures Sound(Evaluate(rt, v, row))
    decreases v, 3
  {
    if v.entries.Keys == {"operation", "parameters"} {
      OperationSound(rt, v.entries["operation"].text, v.entries["parameters"].entries, row);
    }
  }

  lemma {:induction false} OperandsSound(rt: Runtime, items: seq<Value>, row: Row)
    requires OperandsColumns(items).Some?
    ensures Sound(EvaluateAll(rt, items, row))
    decreases items, 0
  {
    if items != [] {
      OperandSound(rt, items[0], row);
      OperandsSound(rt, items[1..], row);
    }
  }

  lemma {:induction false} FieldSound(rt: Runtime, parameters: Fields, key: string, row: Row)
    requires OperandColumns(parameters, key).Some?
    ensures Sound(EvaluateField(rt, parameters, key, row))
    decreases Dict(parameters), 0
  {
    OperandSound(rt, parameters[key], row);
  }

  lemma {:induction false} FoldSound(result: real, rest: seq<real>, operator: string, zeroPolicy: string)
    ensures Sound(Fold(result, rest, operator, zeroPolicy))
    ensures zeroPolicy != "error" || operator in {"add", "subtract", "multiply"}
            ==> Fold(result, rest, operator, zeroPolicy).Ok?
    decreases |rest|
  {
    if rest != [] {
      var progress := Step(result, rest[0], operator, zeroPolicy);
      if progress.Continue? { FoldSound(progress.result, rest[1..], operator, zeroPolicy); }
    }
  }

  lemma CalculateSound(rt: Runtime, values: seq<Value>, parameters: Fields)
    requires values != [] && "operator" in parameters
    ensures Sound(Calculate(rt, values, parameters))
  {
    var numeric := NumericAll(rt, values);
    if forall n | n in numeric :: n.Some? {
      var reals := seq(|numeric|, i requires 0 <= i < |numeric| => assert numeric[i] in numeric; numeric[i].value);
      var policy := if "on_divide_by_zero" in parameters then Text(rt, parameters["on_divide_by_zero"]) else "null";
      FoldSound(reals[0], reals[1..], Text(rt, parameters["operator"]), policy);
    }
  }

  lemma {:induction false} ArithmeticSound(rt: Runtime, parameters: Fields, row: Row)
    requires ValidateExpression("arithmetic", parameters).Some?
    ensures Sound(EvaluateOperation(rt, "arithmetic", parameters, row))
    decreases Dict(parameters), 1
  {
    OperandsSound(rt, parameters["operands"].items, row);
    var values := EvaluateOperands(rt, parameters, row);
    if values.Ok? { CalculateSound(rt, values.value, parameters); }
  }

  lemma {:induction false} LogicalSound(rt: Runtime, parameters: Fields, row: Row)
    requires ValidateExpression("logical", parameters).Some?
    ensures Sound(EvaluateOperation(rt, "logical", parameters, row))
    decreases Dict(parameters), 1
  {
    OperandsSound(rt, parameters["operands"].items, row);
  }

  lemma {:induction false} ConditionalSound(rt: Runtime, parameters: Fields, row: Row)
    requires ValidateExpression("conditional", parameters).Some?
    ensures Sound(EvaluateOperation(rt, "conditional", parameters, row))
    decreases Dict(parameters), 1
  {
    FieldSound(rt, parameters, "condition", row);
    FieldSound(rt, parameters, "true_value", row);
    FieldSound(rt, parameters, "false_value", row);
  }

  lemma {:induction false} MappingSound(rt: Runtime, parameters: Fields, row: Row)
    requires ValidateExpression("map_values", parameters).Some?
    ensures Sound(EvaluateOperation(rt, "map_values", parameters, row))
    decreases Dict(parameters), 1
  {
    FieldSound(rt, parameters, "source", row);
    if "default" in parameters { FieldSound(rt, parameters, "default", row); }
  }

  lemma {:induction false} CompareSound(rt: Runtime, parameters: Fields, row: Row)
    requires ValidateExpression("compare", parameters).Some?
    ensures Sound(EvaluateOperation(rt, "compare", parameters, row))
    decreases Dict(parameters), 1
  {
    FieldSound(rt, parameters, "left", row);
    FieldSound(rt, parameters, "right", row);
  }

  /** Every expression the plan check accepts evaluates on every row, whatever its columns are. */
  lemma {:induction false} OperationSound(rt: Runtime, name: string, parameters: Fields, row: Row)
    requires name in EXPRESSION_NAMES && ValidateExpression(name, parameters).Some?
    ensures Sound(EvaluateOperation(rt, name, parameters, row))
    decreases Dict(parameters), 2
  {
    if name == "compare" { CompareSound(rt, parameters, row); }
    else if name == "logical" { LogicalSound(rt, parameters, row); }
    else if name == "conditional" { ConditionalSound(rt, parameters, row); }
    else if name == "arithmetic" { ArithmeticSound(rt, parameters, row); }
    else { MappingSound(rt, parameters, row); }
  }

  // ----- the reference set is complete -----

  /** Two rows that a reader of `columns` cannot tell apart. */
  predicate Agree(a: Row, b: Row, columns: set<ColumnKey>) {
    forall c | c in columns :: Get(a, c) == Get(b, c)
  }

  lemma {:induction false} OperandLocal(rt: Runtime, v: Value, a: Row, b: Row)
    requires ValidateOperand(v).Some? && Agree(a, b, ValidateOperand(v).value)
    ensures Evaluate(rt, v, a) == Evaluate(rt, v, b)
    decreases v, 3
  {
    if v.entries.Keys == {"operation", "parameters"} {
      OperationLocal(rt, v.entries["operation"].text, v.entries["parameters"].entries, a, b);
    }
  }

  lemma {:induction false} OperandsLocal(rt: Runtime, items: seq<Value>, a: Row, b: Row)
    requires OperandsColumns(items).Some? && Agree(a, b, OperandsColumns(items).value)
    ensures EvaluateAll(rt, items, a) == EvaluateAll(rt, items, b)
    decreases items, 0
  {
    if items != [] {
      OperandLocal(rt, items[0], a, b);
      OperandsLocal(rt, items[1..], a, b);
    }
  }

  lemma {:induction false} FieldLocal(rt: Runtime, parameters: Fields, key: string, a: Row, b: Row)
    requires OperandColumns(parameters, key).Some? && Agree(a, b, OperandColumns(parameters, key).value)
    ensures EvaluateField(rt, parameters, key, a) == EvaluateField(rt, parameters, key, b)
    decreases Dict(parameters), 0
  {
    OperandLocal(rt, parameters[key], a, b);
  }

  lemma {:induction false} CompareLocal(rt: Runtime, parameters: Fields, a: Row, b: Row)
    requires ValidateExpression("compare", parameters).Some?
    requires Agree(a, b, ValidateExpression("compare", parameters).value)
    ensures EvaluateOperation(rt, "compare", parameters, a) == EvaluateOperation(rt, "compare", parameters, b)
    decreases Dict(parameters), 1
  {
    FieldLocal(rt, parameters, "left", a, b);
    FieldLocal(rt, parameters, "right", a, b);
  }

  lemma {:induction false} OperandListLocal(rt: Runtime, name: string, parameters: Fields, a: Row, b: Row)
    requires name == "logical" || name == "arithmetic"
    requires ValidateExpression(name, parameters).Some? && Agree(a, b, ValidateExpression(name, parameters).value)
    ensures EvaluateOperands(rt, parameters, a) == EvaluateOperands(rt, parameters, b)
    decreases Dict(parameters), 1
  {
    OperandsLocal(rt, parameters["operands"].items, a, b);
  }

  lemma {:induction false} ConditionalLocal(rt: Runtime, parameters: Fields, a: Row, b: Row)
    requires ValidateExpression("conditional", parameters).Some?
    requires Agree(a, b, ValidateExpression("conditional", parameters).value)
    ensures EvaluateOperation(rt, "conditional", parameters, a) == EvaluateOperation(rt, "conditional", parameters, b)
    decreases Dict(parameters), 1
  {
    FieldLocal(rt, parameters, "condition", a, b);
    FieldLocal(rt, parameters, "true_value", a, b);
    FieldLocal(rt, parameters, "false_value", a, b);
  }

  lemma {:induction false} MappingLocal(rt: Runtime, parameters: Fields, a: Row, b: Row)
    requires ValidateExpression("map_values", parameters).Some?
    requires Agree(a, b, ValidateExpression("map_values", parameters).value)
    ensures EvaluateOperation(rt, "map_values", parameters, a) == EvaluateOperation(rt, "map_values", parameters, b)
    decreases Dict(parameters), 1
  {
    FieldLocal(rt, parameters, "source", a, b);
    if "default" in parameters { FieldLocal(rt, parameters, "default", a, b); }
  }

  /** An accepted expression cannot be influenced by a column outside its checked set. */
  lemma {:induction false} OperationLocal(rt: Runtime, name: string, parameters: Fields, a: Row, b: Row)
    requires name in EXPRESSION_NAMES && ValidateExpression(name, parameters).Some?
    requires Agree(a, b, ValidateExpression(name, parameters).value)
    ensures EvaluateOperation(rt, name, parameters, a) == EvaluateOperation(rt, name, parameters, b)
    decreases Dict(parameters), 2
  {
    if name == "compare" { CompareLocal(rt, parameters, a, b); }
    else if name == "conditional" { ConditionalLocal(rt, parameters, a, b); }
    else if name == "map_values" { MappingLocal(rt, parameters, a, b); }
    else { OperandListLocal(rt, name, parameters, a, b); }
  }
}
