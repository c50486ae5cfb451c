/**
 Normalising keeps the meaning of an expression.  `Loose` evaluates the forms a model may write
 directly: operators as symbols, declared names as columns, flat comparisons, and the other names of
 parameters.  Evaluating the normalised expression gives the same value.
 */
module DerivationMeaning {
  import opened Values
  import opened DerivationSpec
  import opened DerivationFixpoint
  import E = Expressions

  // ----- the meaning of the forms a model may write -----

  /** The word for a comparison, which may be written as a symbol. */
  function Word(operator: string): string {
    match operator
    case "==" => "eq"
    case "=" => "eq"
    case "!=" => "neq"
    case "<>" => "neq"
    case ">" => "gt"
    case ">=" => "gte"
    case "<" => "lt"
    case "<=" => "lte"
    case _ => operator
  }

  /** Comparing two values, or failing as the first operand that fails. */
  function Relate(
    rt: Runtime, left: Outcome<Value>, right: Outcome<Value>, operator: Outcome<Value>): Outcome<Value>
  {
    var a :- left;
    var b :- right;
    var o :- operator;
    var result :- E.Compare(a, b, if o.Str? then Word(o.text) else Text(rt, o));
    Ok(Bool(result))
  }

  /** The cell of a column given by its name. */
  function ColumnCell(rt: Runtime, name: Value, row: Row): Outcome<Value> { Ok(Get(row, Named(Text(rt, name)))) }

  /** A parameter that is no operand: rewritten if it happens to look like an operation. */
  ghost function Plain(declared: set<string>, p: Fields, key: string): Outcome<Value> {
    if key !in p then Err(MissingKey(key))
    else if NestedValue(declared, p[key]).Some? then Ok(NestedValue(declared, p[key]).value)
    else Ok(p[key])
  }

  ghost function Loose(rt: Runtime, declared: set<string>, v: Value, row: Row): Outcome<Value>
    decreases Nesting(v), 0
  {
    if !IsOperation(v) then E.Evaluate(rt, v, row)
    else
      var p := v.entries["parameters"].entries;
      ParametersShallower(v);
      match v.entries["operation"].text
      case "compare" => LooseCompare(rt, declared, p, row)
      case "logical" => LooseLogical(rt, declared, p, row)
      case "conditional" => LooseConditional(rt, declared, p, row)
      case "arithmetic" => LooseArithmetic(rt, declared, p, row)
      case "map_values" => LooseMap(rt, declared, p, row)
      case _ => Err(BadExpression)
  }

  /** A declared name is its column, unless a literal is expected; any other scalar is itself. */
  ghost function LooseOperand(rt: Runtime, declared: set<string>, v: Value, literal: bool, row: Row): Outcome<Value>
    decreases Nesting(v), 1
  {
    if v.Dict? then Loose(rt, declared, v, row)
    else if v.Str? && v.text in declared && !literal then Ok(Get(row, Named(v.text)))
    else Ok(v)
  }

  /** A condition may also be a comparison of a column with a value, without an operation. */
  ghost function LooseCondition(rt: Runtime, declared: set<string>, v: Value, row: Row): Outcome<Value>
    decreases Nesting(v), 2
  {
    if v.Dict? && Flat(v.entries) then
      Relate(rt, ColumnCell(rt, v.entries["column"], row), LooseOperand(rt, declared, v.entries["value"], true, row),
             Ok(v.entries["operator"]))
    else LooseOperand(rt, declared, v, false, row)
  }

  ghost function LooseAt(
    rt: Runtime, declared: set<string>, p: Fields, key: string, literal: bool, row: Row): Outcome<Value>
    decreases FieldsNesting(p), 3
  {
    if key in p then LooseOperand(rt, declared, p[key], literal, row) else Err(MissingKey(key))
  }

  ghost function LooseCompare(rt: Runtime, declared: set<string>, p: Fields, row: Row): Outcome<Value>
    decreases FieldsNesting(p), 4
  {
    var operator := Field(p, "operator");
    if "column" in p then
      Relate(rt, ColumnCell(rt, p["column"], row), LooseAt(rt, declared, p, "value", true, row), operator)
    else
      Relate(rt, LooseAt(rt, declared, p, "left", false, row), LooseAt(rt, declared, p, "right", true, row), operator)
  }

  ghost function LooseItems(
    rt: Runtime, declared: set<string>, items: seq<Value>, conditions: bool, row: Row): (r: Outcome<seq<Value>>)
    decreases ItemsNesting(items), 3, |items|
  {
    if items == [] then Ok([])
    else
      TailNesting(items);
      var head :- if conditions then LooseCondition(rt, declared, items[0], row)
                  else LooseOperand(rt, declared, items[0], false, row);
      var tail :- LooseItems(rt, declared, items[1..], conditions, row);
      Ok([head] + tail)
  }

  lemma TailNesting(items: seq<Value>)
    requires items != []
    ensures ItemsNesting(items[1..]) <= ItemsNesting(items)
  {
    assert forall i | 0 <= i < |items[1..]| :: items[1..][i] == items[i + 1];
  }

  ghost function LooseList(
    rt: Runtime, declared: set<string>, p: Fields, key: string, conditions: bool, row: Row): Outcome<seq<Value>>
    decreases FieldsNesting(p), 4
  {
    if key !in p then Err(MissingKey("operands"))
    else if !p[key].List? then Err(BadExpression)
    else LooseItems(rt, declared, p[key].items, conditions, row)
  }

  ghost function LooseLogical(rt: Runtime, declared: set<string>, p: Fields, row: Row): Outcome<Value>
    decreases FieldsNesting(p), 5
  {
    var values :- LooseList(rt, declared, p, if "conditions" in p then "conditions" else "operands", true, row);
    var operator :- Field(p, "operator");
    E.Connect(values, operator)
  }

  ghost function LooseConditional(rt: Runtime, declared: set<string>, p: Fields, row: Row): Outcome<Value>
    decreases FieldsNesting(p), 4
  {
    var key := if "if" in p then "if" else "condition";
    if key !in p then Err(MissingKey("condition"))
    else if p[key].Null? then Err(BadExpression)
    else
      var condition :- LooseCondition(rt, declared, p[key], row);
      if Truthy(condition) then
        if "then" in p then LooseAt(rt, declared, p, "then", false, row)
        else LooseAt(rt, declared, p, "true_value", false, row)
      else if "else" in p then LooseAt(rt, declared, p, "else", false, row)
      else LooseAt(rt, declared, p, "false_value", false, row)
  }

  ghost function LooseArithmetic(rt: Runtime, declared: set<string>, p: Fields, row: Row): Outcome<Value>
    decreases FieldsNesting(p), 5
  {
    var values :- LooseList(rt, declared, p, "operands", false, row);
    var policy := Plain(declared, p, "on_divide_by_zero");
    E.Calculate(rt, values, if policy.Ok? then p["on_divide_by_zero" := policy.value] else p)
  }

  ghost function LooseMap(rt: Runtime, declared: set<string>, p: Fields, row: Row): Outcome<Value>
    decreases FieldsNesting(p), 4
  {
    var source :- if "column" in p then ColumnCell(rt, p["column"], row)
                  else LooseAt(rt, declared, p, "source", false, row);
    var mapping :- Plain(declared, p, "mapping");
    if !mapping.Dict? then Err(BadExpression)
    else if Text(rt, source) in mapping.entries then Ok(mapping.entries[Text(rt, source)])
    else if "default" in p then LooseAt(rt, declared, p, "default", true, row)
    else Ok(Null)
  }

  // ----- the induction hypothesis -----

  ghost predicate Means(rt: Runtime, declared: set<string>, v: Value, row: Row) {
    Normalize(declared, v).Some? ==>
      E.Evaluate(rt, Normalize(declared, v).value, row) == Loose(rt, declared, v, row)
  }

  ghost predicate MeansBelow(rt: Runtime, declared: set<string>, n: nat, row: Row) {
    forall v {:trigger Means(rt, declared, v, row)} :: Nesting(v) < n ==> Means(rt, declared, v, row)
  }

  // ----- operands and conditions -----

  lemma SingleEvaluates(rt: Runtime, v: Value, row: Row)
    ensures E.Evaluate(rt, Column(v), row) == ColumnCell(rt, v, row)
    ensures E.Evaluate(rt, Literal(v), row) == Ok(v)
  {
    assert Column(v).entries.Keys == {"column"} && Literal(v).entries.Keys == {"literal"};
    assert "column" !in {"literal"};
  }

  lemma SingleKept(declared: set<string>, v: Value)
    ensures Normalize(declared, Column(v)) == Some(Column(v)) && Normalize(declared, Literal(v)) == Some(Literal(v))
  {}

  /** An operand, rewritten and then met again by the last loop. */
  lemma OperandMeans(
    rt: Runtime, declared: set<string>, x: Value, literal: bool, u: Value, w: Value, row: Row, n: nat)
    requires MeansBelow(rt, declared, n, row) && Nesting(x) < n
    requires Operand(declared, x, literal) == Some(u) && NestedValue(declared, u) == Some(w)
    ensures E.Evaluate(rt, w, row) == LooseOperand(rt, declared, x, literal, row)
  {
    if x.Dict? {
      NormalizeSettles(declared, x);
      assert Fixed(u) && w == u;
      assert Means(rt, declared, x, row);
    } else {
      SingleKept(declared, x);
      SingleEvaluates(rt, x, row);
    }
  }

  lemma AliasWord(rt: Runtime, declared: set<string>, o: Value)
    requires Alias(o).Some?
    ensures Text(rt, Alias(o).value) == if o.Str? then Word(o.text) else Text(rt, o)
    ensures NestedValue(declared, Alias(o).value) == Alias(o) && Alias(Alias(o).value) == Alias(o)
  {}

  lemma WordAgain(o: Value)
    requires Alias(o).Some?
    ensures Alias(o).value.Str? <==> o.Str?
    ensures o.Str? ==> Word(Alias(o).value.text) == Word(o.text)
  {}

  lemma SingleLoose(rt: Runtime, declared: set<string>, v: Value, literal: bool, row: Row)
    ensures LooseOperand(rt, declared, Column(v), literal, row) == ColumnCell(rt, v, row)
    ensures LooseOperand(rt, declared, Literal(v), literal, row) == Ok(v)
  {
    SingleEvaluates(rt, v, row);
    assert !IsOperation(Column(v)) && !IsOperation(Literal(v));
    assert Loose(rt, declared, Column(v), row) == ColumnCell(rt, v, row);
    assert Loose(rt, declared, Literal(v), row) == Ok(v);
  }

  lemma LiteralLoose(rt: Runtime, declared: set<string>, v: Value, row: Row)
    ensures LooseOperand(rt, declared, if v.Dict? then v else Literal(v), true, row)
         == LooseOperand(rt, declared, v, true, row)
  {
    SingleLoose(rt, declared, v, true, row);
  }

  lemma SpelledOut(rt: Runtime, declared: set<string>, o: Value, column: Value, value: Value, row: Row)
    requires Alias(o).Some?
    ensures Loose(rt, declared, Comparison(Alias(o).value, column, value), row)
         == Relate(rt, ColumnCell(rt, column, row), LooseOperand(rt, declared, value, true, row), Ok(o))
  {
    var operator, right := Alias(o).value, if value.Dict? then value else Literal(value);
    var v := Comparison(operator, column, value);
    var p: Fields := map["operator" := operator, "left" := Column(column), "right" := right];
    assert v == Dict(map["operation" := Str("compare"), "parameters" := Dict(p)]) && IsOperation(v);
    assert Loose(rt, declared, v, row) == LooseCompare(rt, declared, p, row);
    SingleLoose(rt, declared, column, false, row);
    LiteralLoose(rt, declared, value, row);
    ThreeFields(rt, declared, operator, Column(column), right, row);
    WordAgain(o);
    RelatedAlias(rt, ColumnCell(rt, column, row), LooseOperand(rt, declared, value, true, row), o);
  }

  lemma ThreeFields(rt: Runtime, declared: set<string>, operator: Value, left: Value, right: Value, row: Row)
    ensures LooseCompare(rt, declared, map["operator" := operator, "left" := left, "right" := right], row)
         == Relate(rt, LooseOperand(rt, declared, left, false, row), LooseOperand(rt, declared, right, true, row),
                   Ok(operator))
  {
    var p: Fields := map["operator" := operator, "left" := left, "right" := right];
    assert "column" !in p && p["left"] == left && p["right"] == right && p["operator"] == operator;
  }

  lemma RelatedAlias(rt: Runtime, a: Outcome<Value>, b: Outcome<Value>, o: Value)
    requires Alias(o).Some?
    ensures Relate(rt, a, b, Ok(Alias(o).value)) == Relate(rt, a, b, Ok(o))
  {
    WordAgain(o);
  }

  /** What a flat comparison is spelled out to. */
  lemma FlatSpelled(declared: set<string>, x: Value, u: Value)
    requires x.Dict? && Flat(x.entries) && FlatCompare(declared, x) == Some(u)
    ensures var m := x.entries;
      Alias(m["operator"]).Some? && u == Comparison(Alias(m["operator"]).value, m["column"], m["value"])
      && Nesting(u) <= Nesting(x)
  {}

  lemma FlatMeans(rt: Runtime, declared: set<string>, x: Value, u: Value, w: Value, row: Row, n: nat)
    requires MeansBelow(rt, declared, n, row) && Nesting(x) < n && x.Dict? && Flat(x.entries)
    requires FlatCompare(declared, x) == Some(u) && NestedValue(declared, u) == Some(w)
    ensures E.Evaluate(rt, w, row) == LooseCondition(rt, declared, x, row)
  {
    var m := x.entries;
    FlatSpelled(declared, x, u);
    SpelledOut(rt, declared, m["operator"], m["column"], m["value"], row);
    assert Means(rt, declared, u, row);
  }

  /** A dictionary that is neither an operation nor a comparison stays as it is. */
  lemma RawMeans(rt: Runtime, declared: set<string>, x: Value, u: Value, w: Value, row: Row)
    requires x.Dict? && "operation" !in x.entries && !Flat(x.entries)
    requires FlatCompare(declared, x) == Some(u) && NestedValue(declared, u) == Some(w)
    ensures E.Evaluate(rt, w, row) == LooseCondition(rt, declared, x, row)
  {
    RawKept(declared, x, u, w);
    RawLoose(rt, declared, x, row);
  }

  lemma RawKept(declared: set<string>, x: Value, u: Value, w: Value)
    requires x.Dict? && "operation" !in x.entries && !Flat(x.entries)
    requires FlatCompare(declared, x) == Some(u) && NestedValue(declared, u) == Some(w)
    ensures w == x
  {
    assert u == x;
  }

  lemma RawLoose(rt: Runtime, declared: set<string>, x: Value, row: Row)
    requires x.Dict? && "operation" !in x.entries && !Flat(x.entries)
    ensures LooseCondition(rt, declared, x, row) == E.Evaluate(rt, x, row)
  {
    assert LooseCondition(rt, declared, x, row) == LooseOperand(rt, declared, x, false, row);
    assert LooseOperand(rt, declared, x, false, row) == Loose(rt, declared, x, row);
  }

  /** A condition, spelled out and then met again by the last loop. */
  lemma ConditionMeans(rt: Runtime, declared: set<string>, x: Value, u: Value, w: Value, row: Row, n: nat)
    requires MeansBelow(rt, declared, n, row) && Nesting(x) < n && x.Dict?
    requires FlatCompare(declared, x) == Some(u) && NestedValue(declared, u) == Some(w)
    ensures E.Evaluate(rt, w, row) == LooseCondition(rt, declared, x, row)
  {
    if "operation" in x.entries {
      OperandMeans(rt, declared, x, false, u, w, row, n);
    } else if Flat(x.entries) {
      FlatMeans(rt, declared, x, u, w, row, n);
    } else {
      RawMeans(rt, declared, x, u, w, row);
    }
  }

  // ----- fields -----

  /** The last loop rewrites every field for itself. */
  lemma NestedField(declared: set<string>, q: Fields, r: Fields, key: string)
    requires Nested(declared, q) == Some(r)
    ensures key in r <==> key in q
    ensures key in q ==> NestedValue(declared, q[key]) == Some(r[key])
  {}

  lemma FieldBelow(p: Fields, key: string, n: nat)
    requires key in p && FieldsNesting(p) < n
    ensures Nesting(p[key]) < n
  {}

  /** The operator keeps its meaning. */
  lemma OperatorMeans(rt: Runtime, declared: set<string>, p: Fields, a: Fields, q: Fields, r: Fields)
    requires AliasOperator(p) == Some(a) && Nested(declared, q) == Some(r)
    requires "operator" in q <==> "operator" in a
    requires "operator" in a ==> q["operator"] == a["operator"]
    ensures "operator" in r <==> "operator" in p
    ensures "operator" in p ==> Alias(p["operator"]) == Some(r["operator"])
  {
    NestedField(declared, q, r, "operator");
    if "operator" in p { AliasWord(rt, declared, p["operator"]); }
  }

  lemma AliasedField(p: Fields, a: Fields, key: string)
    requires AliasOperator(p) == Some(a) && key != "operator"
    ensures (key in a <==> key in p) && (key in p ==> a[key] == p[key])
  {}

  /** A field that holds an operand. */
  lemma FieldMeans(
    rt: Runtime, declared: set<string>, p: Fields, key: string, literal: bool, r: Fields, to: string, row: Row, n: nat)
    requires MeansBelow(rt, declared, n, row) && FieldsNesting(p) < n
    requires to in r <==> key in p
    requires key in p ==> exists u ::
      Operand(declared, p[key], literal) == Some(u) && NestedValue(declared, u) == Some(r[to])
    ensures key in p ==> E.EvaluateField(rt, r, to, row) == LooseAt(rt, declared, p, key, literal, row)
    ensures key !in p ==> E.EvaluateField(rt, r, to, row) == Err(MissingKey(to))
  {
    if key in p {
      var u :| Operand(declared, p[key], literal) == Some(u) && NestedValue(declared, u) == Some(r[to]);
      FieldBelow(p, key, n);
      OperandMeans(rt, declared, p[key], literal, u, r[to], row, n);
    }
  }

  /** The operand in the field has been rewritten, first itself and then by the last loop. */
  ghost predicate Taken(declared: set<string>, x: Value, literal: bool, w: Value) {
    exists u :: Operand(declared, x, literal) == Some(u) && NestedValue(declared, u) == Some(w)
  }

  lemma OperandAtField(declared: set<string>, p: Fields, key: string, literal: bool, q: Fields, other: string)
    requires OperandAt(declared, p, key, literal) == Some(q)
    ensures other in q <==> other in p
    ensures other != key && other in p ==> q[other] == p[other]
    ensures key in p ==> key in q && Operand(declared, p[key], literal) == Some(q[key])
  {}

  lemma FieldTaken(declared: set<string>, x: Value, literal: bool, q: Fields, r: Fields, key: string)
    requires key in q && Operand(declared, x, literal) == Some(q[key]) && Nested(declared, q) == Some(r)
    ensures key in r && Taken(declared, x, literal, r[key])
  {
    NestedField(declared, q, r, key);
  }

  lemma TakenMeans(
    rt: Runtime, declared: set<string>, p: Fields, key: string, literal: bool, r: Fields, to: string, row: Row, n: nat)
    requires MeansBelow(rt, declared, n, row) && FieldsNesting(p) < n
    requires key in p && to in r && Taken(declared, p[key], literal, r[to])
    ensures E.EvaluateField(rt, r, to, row) == LooseAt(rt, declared, p, key, literal, row)
  {
    FieldMeans(rt, declared, p, key, literal, r, to, row, n);
  }

  lemma CompareEvaluates(rt: Runtime, p: Fields, r: Fields, row: Row, left: Outcome<Value>, right: Outcome<Value>)
    requires E.EvaluateField(rt, r, "left", row) == left && E.EvaluateField(rt, r, "right", row) == right
    requires "operator" in r <==> "operator" in p
    requires "operator" in p ==> Alias(p["operator"]) == Some(r["operator"])
    ensures E.EvaluateOperation(rt, "compare", r, row) == Relate(rt, left, right, Field(p, "operator"))
  {
    if "operator" in p { AliasWord(rt, {}, p["operator"]); }
  }

  lemma ComparedColumn(declared: set<string>, a: Fields, q: Fields)
    requires Compared(declared, a) == Some(q) && ("column" in a || "value" in a)
    ensures "column" in a && "value" in a && "left" in q && q["left"] == Column(a["column"])
    ensures "right" in q && Operand(declared, a["value"], true) == Some(q["right"])
    ensures "operator" in q <==> "operator" in a
    ensures "operator" in a ==> q["operator"] == a["operator"]
  {
    ComparedIs(declared, a, q);
    UnaliasedFields(a, Operand(declared, a["value"], true).value);
  }

  lemma ComparedIs(declared: set<string>, a: Fields, q: Fields)
    requires Compared(declared, a) == Some(q) && ("column" in a || "value" in a)
    ensures "column" in a && "value" in a && Operand(declared, a["value"], true).Some?
    ensures q == Unaliased(a, Operand(declared, a["value"], true).value)
  {}

  lemma UnaliasedFields(a: Fields, right: Value)
    requires "column" in a
    ensures var q := Unaliased(a, right);
      && "left" in q && q["left"] == Column(a["column"]) && "right" in q && q["right"] == right
      && ("operator" in q <==> "operator" in a) && ("operator" in a ==> q["operator"] == a["operator"])
  {}

  lemma ColumnField(rt: Runtime, declared: set<string>, name: Value, q: Fields, r: Fields, key: string, row: Row)
    requires key in q && q[key] == Column(name) && Nested(declared, q) == Some(r)
    ensures E.EvaluateField(rt, r, key, row) == ColumnCell(rt, name, row)
  {
    NestedField(declared, q, r, key);
    SingleKept(declared, name);
    SingleEvaluates(rt, name, row);
  }

  lemma ColumnCompare(
    rt: Runtime, declared: set<string>, p: Fields, a: Fields, q: Fields, r: Fields, row: Row, n: nat)
    requires MeansBelow(rt, declared, n, row) && FieldsNesting(p) < n
    requires AliasOperator(p) == Some(a) && Compared(declared, a) == Some(q) && Nested(declared, q) == Some(r)
    requires "column" in a || "value" in a
    ensures "column" in p && "value" in p
    ensures E.EvaluateField(rt, r, "left", row) == ColumnCell(rt, p["column"], row)
    ensures E.EvaluateField(rt, r, "right", row) == LooseAt(rt, declared, p, "value", true, row)
  {
    AliasedField(p, a, "column");
    AliasedField(p, a, "value");
    ComparedColumn(declared, a, q);
    ColumnField(rt, declared, p["column"], q, r, "left", row);
    FieldTaken(declared, p["value"], true, q, r, "right");
    TakenMeans(rt, declared, p, "value", true, r, "right", row, n);
  }

  lemma OperandField(
    rt: Runtime, declared: set<string>, p: Fields, key: string, literal: bool, q: Fields, r: Fields, row: Row, n: nat)
    requires MeansBelow(rt, declared, n, row) && FieldsNesting(p) < n && Nested(declared, q) == Some(r)
    requires key in q <==> key in p
    requires key in p ==> Operand(declared, p[key], literal) == Some(q[key])
    ensures E.EvaluateField(rt, r, key, row) == LooseAt(rt, declared, p, key, literal, row)
  {
    NestedField(declared, q, r, key);
    if key in p {
      FieldTaken(declared, p[key], literal, q, r, key);
      TakenMeans(rt, declared, p, key, literal, r, key, row, n);
    }
  }

  lemma PairCompare(
    rt: Runtime, declared: set<string>, p: Fields, a: Fields, q: Fields, r: Fields, row: Row, n: nat)
    requires MeansBelow(rt, declared, n, row) && FieldsNesting(p) < n
    requires AliasOperator(p) == Some(a) && Compared(declared, a) == Some(q) && Nested(declared, q) == Some(r)
    requires "column" !in a && "value" !in a
    ensures "column" !in p
    ensures E.EvaluateField(rt, r, "left", row) == LooseAt(rt, declared, p, "left", false, row)
    ensures E.EvaluateField(rt, r, "right", row) == LooseAt(rt, declared, p, "right", true, row)
    ensures "operator" in q <==> "operator" in a
    ensures "operator" in a ==> q["operator"] == a["operator"]
  {
    AliasedField(p, a, "column");
    AliasedField(p, a, "left");
    AliasedField(p, a, "right");
    var b := OperandAt(declared, a, "left", false).value;
    OperandAtField(declared, a, "left", false, b, "right");
    OperandAtField(declared, a, "left", false, b, "operator");
    OperandAtField(declared, b, "right", true, q, "left");
    OperandAtField(declared, b, "right", true, q, "operator");
    OperandField(rt, declared, p, "left", false, q, r, row, n);
    OperandField(rt, declared, p, "right", true, q, r, row, n);
  }

  lemma CompareMeans(
    rt: Runtime, declared: set<string>, p: Fields, a: Fields, q: Fields, r: Fields, row: Row, n: nat)
    requires MeansBelow(rt, declared, n, row) && FieldsNesting(p) < n
    requires AliasOperator(p) == Some(a) && Compared(declared, a) == Some(q) && Nested(declared, q) == Some(r)
    ensures E.EvaluateOperation(rt, "compare", r, row) == LooseCompare(rt, declared, p, row)
  {
    if "column" in a || "value" in a {
      ComparedColumn(declared, a, q);
      ColumnCompare(rt, declared, p, a, q, r, row, n);
      OperatorMeans(rt, declared, p, a, q, r);
      CompareEvaluates(rt, p, r, row, ColumnCell(rt, p["column"], row), LooseAt(rt, declared, p, "value", true, row));
    } else {
      PairCompare(rt, declared, p, a, q, r, row, n);
      OperatorMeans(rt, declared, p, a, q, r);
      CompareEvaluates(rt, p, r, row, LooseAt(rt, declared, p, "left", false, row),
                       LooseAt(rt, declared, p, "right", true, row));
    }
  }

  // ----- lists of operands -----

  ghost function ItemOf(declared: set<string>, x: Value, conditions: bool): Option<Value> {
    if conditions && x.Dict? then FlatCompare(declared, x) else Operand(declared, x, false)
  }

  ghost predicate ItemTaken(declared: set<string>, x: Value, conditions: bool, w: Value) {
    exists u :: ItemOf(declared, x, conditions) == Some(u) && NestedValue(declared, u) == Some(w)
  }

  ghost function LooseItem(rt: Runtime, declared: set<string>, x: Value, conditions: bool, row: Row): Outcome<Value> {
    if conditions then LooseCondition(rt, declared, x, row) else LooseOperand(rt, declared, x, false, row)
  }

  lemma ItemMeans(rt: Runtime, declared: set<string>, x: Value, conditions: bool, w: Value, row: Row, n: nat)
    requires MeansBelow(rt, declared, n, row) && Nesting(x) < n && ItemTaken(declared, x, conditions, w)
    ensures E.Evaluate(rt, w, row) == LooseItem(rt, declared, x, conditions, row)
  {
    var u :| ItemOf(declared, x, conditions) == Some(u) && NestedValue(declared, u) == Some(w);
    if conditions && x.Dict? {
      ConditionMeans(rt, declared, x, u, w, row, n);
    } else {
      OperandMeans(rt, declared, x, false, u, w, row, n);
    }
  }

  lemma {:induction false} ItemsMean(
    rt: Runtime, declared: set<string>, xs: seq<Value>, conditions: bool, ws: seq<Value>, row: Row, n: nat)
    requires MeansBelow(rt, declared, n, row) && |ws| == |xs|
    requires forall i | 0 <= i < |xs| :: Nesting(xs[i]) < n && ItemTaken(declared, xs[i], conditions, ws[i])
    ensures E.EvaluateAll(rt, ws, row) == LooseItems(rt, declared, xs, conditions, row)
    decreases |xs|
  {
    if xs != [] {
      ItemMeans(rt, declared, xs[0], conditions, ws[0], row, n);
      ItemsMean(rt, declared, xs[1..], conditions, ws[1..], row, n);
      LooseItemsNext(rt, declared, xs, conditions, row);
    }
  }

  lemma LooseItemsNext(rt: Runtime, declared: set<string>, xs: seq<Value>, conditions: bool, row: Row)
    requires xs != []
    ensures LooseItems(rt, declared, xs, conditions, row) ==
      match (LooseItem(rt, declared, xs[0], conditions, row), LooseItems(rt, declared, xs[1..], conditions, row))
      case (Err(e), _) => Err(e)
      case (Ok(_), Err(e)) => Err(e)
      case (Ok(head), Ok(tail)) => Ok([head] + tail)
  {}

  lemma ItemsTaken(declared: set<string>, xs: seq<Value>, conditions: bool, ys: seq<Value>, w: Value)
    requires Items(declared, xs, conditions) == Some(ys) && NestedValue(declared, List(ys)) == Some(w)
    ensures w.List? && |w.items| == |xs|
    ensures forall i | 0 <= i < |xs| :: ItemTaken(declared, xs[i], conditions, w.items[i])
  {
    forall i | 0 <= i < |xs| ensures ItemTaken(declared, xs[i], conditions, w.items[i]) {
      assert ItemOf(declared, xs[i], conditions) == Item(declared, xs, i, conditions) == Some(ys[i]);
      assert ys[i].Dict? && Normalize(declared, ys[i]) == Some(w.items[i]);
    }
  }

  /** A list of operands, rewritten item by item; anything else is still no list. */
  ghost predicate ListTaken(declared: set<string>, x: Value, conditions: bool, w: Value) {
    if !x.List? then !w.List?
    else
      && w.List? && |w.items| == |x.items|
      && forall i | 0 <= i < |x.items| :: ItemTaken(declared, x.items[i], conditions, w.items[i])
  }

  lemma ListField(
    declared: set<string>, a: Fields, key: string, conditions: bool, q: Fields, r: Fields)
    requires ItemsAt(declared, a, key, conditions) == Some(q) && Nested(declared, q) == Some(r)
    ensures key in r <==> key in a
    ensures key in a ==> ListTaken(declared, a[key], conditions, r[key])
  {
    NestedField(declared, q, r, key);
    if key in a && a[key].List? {
      ItemsTaken(declared, a[key].items, conditions, q[key].items, r[key]);
    }
  }

  lemma ItemsAtOther(declared: set<string>, a: Fields, key: string, conditions: bool, q: Fields, other: string)
    requires ItemsAt(declared, a, key, conditions) == Some(q) && other != key
    ensures (other in q <==> other in a) && (other in a ==> q[other] == a[other])
  {}

  lemma TakenList(
    rt: Runtime, declared: set<string>, x: Value, conditions: bool, w: Value, row: Row, n: nat)
    requires MeansBelow(rt, declared, n, row) && Nesting(x) < n && x.List? && ListTaken(declared, x, conditions, w)
    ensures E.EvaluateAll(rt, w.items, row) == LooseItems(rt, declared, x.items, conditions, row)
  {
    forall i | 0 <= i < |x.items| ensures Nesting(x.items[i]) < n {
      assert Nesting(x.items[i]) <= ItemsNesting(x.items);
    }
    ItemsMean(rt, declared, x.items, conditions, w.items, row, n);
  }

  /** The operands have the values of the loose ones, wherever they were written. */
  lemma ListMeans(
    rt: Runtime, declared: set<string>, p: Fields, key: string, conditions: bool, r: Fields, row: Row, n: nat)
    requires MeansBelow(rt, declared, n, row) && FieldsNesting(p) < n
    requires "operands" in r <==> key in p
    requires key in p ==> ListTaken(declared, p[key], conditions, r["operands"])
    ensures E.EvaluateOperands(rt, r, row) == LooseList(rt, declared, p, key, conditions, row)
  {
    if key in p && p[key].List? {
      FieldBelow(p, key, n);
      TakenList(rt, declared, p[key], conditions, r["operands"], row, n);
    }
  }

  // ----- logical operations -----

  lemma ConnectAlias(values: seq<Value>, o: Value)
    requires Alias(o).Some?
    ensures E.Connect(values, Alias(o).value) == E.Connect(values, o)
  {
    if o.Str? && o.text in ALIASES { assert ALIASES[o.text] !in {"not", "and"} && o.text !in {"not", "and"}; }
  }

  lemma MovedField(p: Fields, name: string, target: string, q: Fields)
    requires name !in FLAT_KEYS + {"operation"} && target !in FLAT_KEYS + {"operation"} && name != target
    requires Move(p, name, target) == Some(q)
    ensures target in q <==> name in p || target in p
    ensures name in p ==> target !in p && q[target] == p[name]
    ensures name !in p && target in p ==> q[target] == p[target]
  {}

  lemma MovedOther(p: Fields, name: string, target: string, q: Fields, key: string)
    requires name !in FLAT_KEYS + {"operation"} && target !in FLAT_KEYS + {"operation"} && name != target
    requires Move(p, name, target) == Some(q) && key != name && key != target
    ensures key in q <==> key in p
    ensures key in p ==> q[key] == p[key]
  {}

  /** Where the operands of a logical operation are written. */
  function OperandsKey(p: Fields): string { if "conditions" in p then "conditions" else "operands" }

  lemma LogicalMoved(p: Fields, a: Fields, b: Fields)
    requires AliasOperator(p) == Some(a) && Move(a, "conditions", "operands") == Some(b)
    ensures "operands" in b <==> OperandsKey(p) in p
    ensures OperandsKey(p) in p ==> b["operands"] == p[OperandsKey(p)]
    ensures "operator" in b <==> "operator" in a
    ensures "operator" in a ==> b["operator"] == a["operator"]
  {
    AliasedField(p, a, "conditions");
    AliasedField(p, a, "operands");
    MovedField(a, "conditions", "operands", b);
    MovedOther(a, "conditions", "operands", b, "operator");
  }

  lemma LogicalFields(declared: set<string>, p: Fields, a: Fields, b: Fields, q: Fields, r: Fields)
    requires AliasOperator(p) == Some(a) && Move(a, "conditions", "operands") == Some(b)
    requires ItemsAt(declared, b, "operands", true) == Some(q) && Nested(declared, q) == Some(r)
    ensures "operands" in r <==> OperandsKey(p) in p
    ensures OperandsKey(p) in p ==> ListTaken(declared, p[OperandsKey(p)], true, r["operands"])
    ensures "operator" in q <==> "operator" in a
    ensures "operator" in a ==> q["operator"] == a["operator"]
  {
    LogicalMoved(p, a, b);
    ListField(declared, b, "operands", true, q, r);
    ItemsAtOther(declared, b, "operands", true, q, "operator");
  }

  lemma LogicalMeans(
    rt: Runtime, declared: set<string>, p: Fields, a: Fields, b: Fields, q: Fields, r: Fields, row: Row, n: nat)
    requires MeansBelow(rt, declared, n, row) && FieldsNesting(p) < n
    requires AliasOperator(p) == Some(a) && Move(a, "conditions", "operands") == Some(b)
    requires ItemsAt(declared, b, "operands", true) == Some(q) && Nested(declared, q) == Some(r)
    ensures E.EvaluateOperation(rt, "logical", r, row) == LooseLogical(rt, declared, p, row)
  {
    LogicalFields(declared, p, a, b, q, r);
    OperatorMeans(rt, declared, p, a, q, r);
    ListMeans(rt, declared, p, OperandsKey(p), true, r, row, n);
    LogicalEvaluates(rt, p, r, row, LooseList(rt, declared, p, OperandsKey(p), true, row));
    LooseLogicalIs(rt, declared, p, row);
  }

  lemma LooseLogicalIs(rt: Runtime, declared: set<string>, p: Fields, row: Row)
    ensures LooseLogical(rt, declared, p, row) ==
      Connected(LooseList(rt, declared, p, OperandsKey(p), true, row), Field(p, "operator"))
  {}

  function Connected(values: Outcome<seq<Value>>, operator: Outcome<Value>): Outcome<Value> {
    match (values, operator)
    case (Err(e), _) => Err(e)
    case (Ok(_), Err(e)) => Err(e)
    case (Ok(vs), Ok(o)) => E.Connect(vs, o)
  }

  lemma LogicalEvaluates(rt: Runtime, p: Fields, r: Fields, row: Row, values: Outcome<seq<Value>>)
    requires E.EvaluateOperands(rt, r, row) == values
    requires "operator" in r <==> "operator" in p
    requires "operator" in p ==> Alias(p["operator"]) == Some(r["operator"])
    ensures E.EvaluateOperation(rt, "logical", r, row) == Connected(values, Field(p, "operator"))
  {
    if values.Ok? && "operator" in p { ConnectAlias(values.value, p["operator"]); }
  }

  // ----- arithmetic -----

  lemma {:induction false} FoldAlias(result: real, rest: seq<real>, a: string, b: string, policy: string)
    requires a !in {"add", "subtract", "multiply"} && b !in {"add", "subtract", "multiply"}
    ensures E.Fold(result, rest, a, policy) == E.Fold(result, rest, b, policy)
    decreases |rest|
  {
    if rest != [] {
      var progress := E.Step(result, rest[0], a, policy);
      assert progress == E.Step(result, rest[0], b, policy);
      if progress.Continue? { FoldAlias(progress.result, rest[1..], a, b, policy); }
    }
  }

  lemma FoldWord(rt: Runtime, result: real, rest: seq<real>, o: Value, policy: string)
    requires Alias(o).Some?
    ensures E.Fold(result, rest, Text(rt, Alias(o).value), policy) == E.Fold(result, rest, Text(rt, o), policy)
  {
    if o.Str? && o.text in ALIASES {
      assert ALIASES[o.text] !in {"add", "subtract", "multiply"} && o.text !in {"add", "subtract", "multiply"};
      FoldAlias(result, rest, ALIASES[o.text], o.text, policy);
    }
  }

  /** Only the operator, up to its alias, and the policy for a zero divisor matter. */
  lemma CalculateSame(rt: Runtime, values: seq<Value>, p: Fields, r: Fields)
    requires "operator" in r <==> "operator" in p
    requires "operator" in p ==> Alias(p["operator"]) == Some(r["operator"])
    requires "on_divide_by_zero" in r <==> "on_divide_by_zero" in p
    requires "on_divide_by_zero" in p ==> p["on_divide_by_zero"] == r["on_divide_by_zero"]
    ensures E.Calculate(rt, values, r) == E.Calculate(rt, values, p)
  {
    var numeric := E.NumericAll(rt, values);
    if (forall x | x in numeric :: x.Some?) && numeric != [] && "operator" in p {
      var policy := if "on_divide_by_zero" in p then Text(rt, p["on_divide_by_zero"]) else "null";
      var reals := seq(|numeric|, i requires 0 <= i < |numeric| => assert numeric[i] in numeric; numeric[i].value);
      FoldWord(rt, reals[0], reals[1..], p["operator"], policy);
    }
  }

  lemma PlainField(declared: set<string>, p: Fields, q: Fields, r: Fields, key: string)
    requires (key in q <==> key in p) && (key in p ==> q[key] == p[key]) && Nested(declared, q) == Some(r)
    ensures Plain(declared, p, key) == if key in r then Ok(r[key]) else Err(MissingKey(key))
  {
    NestedField(declared, q, r, key);
  }

  lemma ArithmeticFields(declared: set<string>, p: Fields, a: Fields, q: Fields, r: Fields)
    requires AliasOperator(p) == Some(a) && ItemsAt(declared, a, "operands", false) == Some(q)
    requires Nested(declared, q) == Some(r)
    ensures "operands" in r <==> "operands" in p
    ensures "operands" in p ==> ListTaken(declared, p["operands"], false, r["operands"])
    ensures "operator" in q <==> "operator" in a
    ensures "operator" in a ==> q["operator"] == a["operator"]
    ensures Plain(declared, p, "on_divide_by_zero")
         == if "on_divide_by_zero" in r then Ok(r["on_divide_by_zero"]) else Err(MissingKey("on_divide_by_zero"))
  {
    AliasedField(p, a, "operands");
    AliasedField(p, a, "on_divide_by_zero");
    ListField(declared, a, "operands", false, q, r);
    ItemsAtOther(declared, a, "operands", false, q, "operator");
    ItemsAtOther(declared, a, "operands", false, q, "on_divide_by_zero");
    PlainField(declared, p, q, r, "on_divide_by_zero");
  }

  lemma ArithmeticEvaluates(
    rt: Runtime, declared: set<string>, p: Fields, r: Fields, row: Row, values: Outcome<seq<Value>>)
    requires E.EvaluateOperands(rt, r, row) == values
    requires "operator" in r <==> "operator" in p
    requires "operator" in p ==> Alias(p["operator"]) == Some(r["operator"])
    requires Plain(declared, p, "on_divide_by_zero")
          == if "on_divide_by_zero" in r then Ok(r["on_divide_by_zero"]) else Err(MissingKey("on_divide_by_zero"))
    ensures var policy := Plain(declared, p, "on_divide_by_zero");
      E.EvaluateOperation(rt, "arithmetic", r, row) ==
        match values
        case Err(e) => Err(e)
        case Ok(vs) => E.Calculate(rt, vs, if policy.Ok? then p["on_divide_by_zero" := policy.value] else p)
  {
    if values.Ok? {
      var policy := Plain(declared, p, "on_divide_by_zero");
      var given := if policy.Ok? then p["on_divide_by_zero" := policy.value] else p;
      assert "operator" in given <==> "operator" in p;
      assert "on_divide_by_zero" in given <==> "on_divide_by_zero" in r;
      CalculateSame(rt, values.value, given, r);
    }
  }

  lemma ArithmeticMeans(
    rt: Runtime, declared: set<string>, p: Fields, a: Fields, q: Fields, r: Fields, row: Row, n: nat)
    requires MeansBelow(rt, declared, n, row) && FieldsNesting(p) < n
    requires AliasOperator(p) == Some(a) && ItemsAt(declared, a, "operands", false) == Some(q)
    requires Nested(declared, q) == Some(r)
    ensures E.EvaluateOperation(rt, "arithmetic", r, row) == LooseArithmetic(rt, declared, p, row)
  {
    ArithmeticFields(declared, p, a, q, r);
    OperatorMeans(rt, declared, p, a, q, r);
    ListMeans(rt, declared, p, "operands", false, r, row, n);
    ArithmeticEvaluates(rt, declared, p, r, row, LooseList(rt, declared, p, "operands", false, row));
  }

  // ----- conditionals -----

  /** The field `target` of `b` is that of `a`, or what `a` has under the other name. */
  ghost predicate Renamed(a: Fields, b: Fields, name: string, target: string) {
    && (target in b <==> name in a || target in a)
    && (target in b ==> b[target] == if name in a then a[name] else a[target])
  }

  /** What the conditional's fields hold that may be written under another name. */
  lemma RenamedFields(a: Fields, b: Fields)
    requires ConditionalNames(a) == Some(b)
    ensures Renamed(a, b, "if", "condition") && Renamed(a, b, "then", "true_value")
    ensures Renamed(a, b, "else", "false_value")
  {
    var c := Move(a, "if", "condition").value;
    var d := Move(c, "then", "true_value").value;
    RenamedIf(a, c, d, b);
    RenamedThen(a, c, d, b);
    RenamedElse(a, c, d, b);
  }

  lemma RenamedIf(a: Fields, c: Fields, d: Fields, b: Fields)
    requires Move(a, "if", "condition") == Some(c) && Move(c, "then", "true_value") == Some(d)
    requires Move(d, "else", "false_value") == Some(b)
    ensures Renamed(a, b, "if", "condition")
  {
    MovedField(a, "if", "condition", c);
    MovedOther(c, "then", "true_value", d, "condition");
    MovedOther(d, "else", "false_value", b, "condition");
  }

  lemma RenamedThen(a: Fields, c: Fields, d: Fields, b: Fields)
    requires Move(a, "if", "condition") == Some(c) && Move(c, "then", "true_value") == Some(d)
    requires Move(d, "else", "false_value") == Some(b)
    ensures Renamed(a, b, "then", "true_value")
  {
    MovedOther(a, "if", "condition", c, "then");
    MovedOther(a, "if", "condition", c, "true_value");
    MovedField(c, "then", "true_value", d);
    MovedOther(d, "else", "false_value", b, "true_value");
  }

  lemma RenamedElse(a: Fields, c: Fields, d: Fields, b: Fields)
    requires Move(a, "if", "condition") == Some(c) && Move(c, "then", "true_value") == Some(d)
    requires Move(d, "else", "false_value") == Some(b)
    ensures Renamed(a, b, "else", "false_value")
  {
    MovedOther(a, "if", "condition", c, "else");
    MovedOther(a, "if", "condition", c, "false_value");
    MovedOther(c, "then", "true_value", d, "else");
    MovedOther(c, "then", "true_value", d, "false_value");
    MovedField(d, "else", "false_value", b);
  }

  /** The parameter under either name. */
  function Either(p: Fields, name: string, target: string): string { if name in p then name else target }

  lemma RenamedMeans(p: Fields, a: Fields, b: Fields, name: string, target: string)
    requires AliasOperator(p) == Some(a) && Renamed(a, b, name, target) && name != "operator" && target != "operator"
    ensures target in b <==> Either(p, name, target) in p
    ensures target in b ==> b[target] == p[Either(p, name, target)]
  {
    AliasedField(p, a, name);
    AliasedField(p, a, target);
  }

  lemma ConditionField(declared: set<string>, b: Fields, c: Fields, key: string)
    requires Condition(declared, b) == Some(c)
    ensures key in c <==> key in b
    ensures key != "condition" && key in b ==> c[key] == b[key]
    ensures "condition" in b && b["condition"].Null? ==> "condition" in c && c["condition"].Null?
    ensures "condition" in b && !b["condition"].Null? ==>
      "condition" in c && ItemOf(declared, b["condition"], true) == Some(c["condition"])
  {
    if "condition" in b && !b["condition"].Null? && !b["condition"].Dict? {
      OperandAtField(declared, b, "condition", false, c, key);
    }
  }

  lemma GuardField(declared: set<string>, b: Fields, c: Fields, d: Fields, q: Fields, r: Fields)
    requires Condition(declared, b) == Some(c) && OperandAt(declared, c, "true_value", false) == Some(d)
    requires OperandAt(declared, d, "false_value", false) == Some(q) && Nested(declared, q) == Some(r)
    ensures "condition" in r <==> "condition" in b
    ensures "condition" in b && b["condition"].Null? ==> r["condition"].Null?
    ensures "condition" in b && !b["condition"].Null? ==> ItemTaken(declared, b["condition"], true, r["condition"])
  {
    ConditionField(declared, b, c, "condition");
    OperandAtField(declared, c, "true_value", false, d, "condition");
    OperandAtField(declared, d, "false_value", false, q, "condition");
    NestedField(declared, q, r, "condition");
  }

  lemma TrueField(declared: set<string>, b: Fields, c: Fields, d: Fields, q: Fields, r: Fields)
    requires Condition(declared, b) == Some(c) && OperandAt(declared, c, "true_value", false) == Some(d)
    requires OperandAt(declared, d, "false_value", false) == Some(q) && Nested(declared, q) == Some(r)
    ensures "true_value" in r <==> "true_value" in b
    ensures "true_value" in b ==> Taken(declared, b["true_value"], false, r["true_value"])
  {
    ConditionField(declared, b, c, "true_value");
    OperandAtField(declared, c, "true_value", false, d, "true_value");
    OperandAtField(declared, d, "false_value", false, q, "true_value");
    NestedField(declared, q, r, "true_value");
  }

  lemma FalseField(declared: set<string>, b: Fields, c: Fields, d: Fields, q: Fields, r: Fields)
    requires Condition(declared, b) == Some(c) && OperandAt(declared, c, "true_value", false) == Some(d)
    requires OperandAt(declared, d, "false_value", false) == Some(q) && Nested(declared, q) == Some(r)
    ensures "false_value" in r <==> "false_value" in b
    ensures "false_value" in b ==> Taken(declared, b["false_value"], false, r["false_value"])
  {
    ConditionField(declared, b, c, "false_value");
    OperandAtField(declared, c, "true_value", false, d, "false_value");
    OperandAtField(declared, d, "false_value", false, q, "false_value");
    NestedField(declared, q, r, "false_value");
  }

  /** The condition that was written under this name. */
  ghost predicate ConditionWritten(declared: set<string>, p: Fields, key: string, r: Fields) {
    && ("condition" in r <==> key in p)
    && (key in p ==> if p[key].Null? then r["condition"].Null? else ItemTaken(declared, p[key], true, r["condition"]))
  }

  /** The branch that was written under this name. */
  ghost predicate BranchWritten(declared: set<string>, p: Fields, key: string, r: Fields, target: string) {
    (target in r <==> key in p) && (key in p ==> Taken(declared, p[key], false, r[target]))
  }

  ghost function ConditionAt(rt: Runtime, declared: set<string>, p: Fields, key: string, row: Row): Outcome<Value> {
    if key !in p then Err(MissingKey("condition")) else if p[key].Null? then Err(BadExpression)
    else LooseCondition(rt, declared, p[key], row)
  }

  lemma ConditionEvaluates(
    rt: Runtime, declared: set<string>, p: Fields, key: string, r: Fields, row: Row, n: nat)
    requires MeansBelow(rt, declared, n, row) && FieldsNesting(p) < n
    requires ConditionWritten(declared, p, key, r)
    ensures E.EvaluateField(rt, r, "condition", row) == ConditionAt(rt, declared, p, key, row)
  {
    if key in p && !p[key].Null? {
      FieldBelow(p, key, n);
      ItemMeans(rt, declared, p[key], true, r["condition"], row, n);
    }
  }

  lemma BranchEvaluates(
    rt: Runtime, declared: set<string>, p: Fields, name: string, target: string, r: Fields, row: Row, n: nat)
    requires MeansBelow(rt, declared, n, row) && FieldsNesting(p) < n
    requires BranchWritten(declared, p, Either(p, name, target), r, target)
    ensures E.EvaluateField(rt, r, target, row) == LooseAt(rt, declared, p, Either(p, name, target), false, row)
  {
    var key := Either(p, name, target);
    if key in p { TakenMeans(rt, declared, p, key, false, r, target, row, n); }
  }

  lemma ConditionalFields(declared: set<string>, p: Fields, a: Fields, b: Fields, q: Fields, r: Fields)
    requires AliasOperator(p) == Some(a) && ConditionalNames(a) == Some(b)
    requires ConditionalValues(declared, b) == Some(q) && Nested(declared, q) == Some(r)
    ensures ConditionWritten(declared, p, Either(p, "if", "condition"), r)
    ensures BranchWritten(declared, p, Either(p, "then", "true_value"), r, "true_value")
    ensures BranchWritten(declared, p, Either(p, "else", "false_value"), r, "false_value")
  {
    RenamedFields(a, b);
    RenamedMeans(p, a, b, "if", "condition");
    RenamedMeans(p, a, b, "then", "true_value");
    RenamedMeans(p, a, b, "else", "false_value");
    var c := Condition(declared, b).value;
    var d := OperandAt(declared, c, "true_value", false).value;
    GuardField(declared, b, c, d, q, r);
    TrueField(declared, b, c, d, q, r);
    FalseField(declared, b, c, d, q, r);
  }

  lemma ConditionalMeans(
    rt: Runtime, declared: set<string>, p: Fields, a: Fields, b: Fields, q: Fields, r: Fields, row: Row, n: nat)
    requires MeansBelow(rt, declared, n, row) && FieldsNesting(p) < n
    requires AliasOperator(p) == Some(a) && ConditionalNames(a) == Some(b)
    requires ConditionalValues(declared, b) == Some(q) && Nested(declared, q) == Some(r)
    ensures E.EvaluateOperation(rt, "conditional", r, row) == LooseConditional(rt, declared, p, row)
  {
    ConditionalFields(declared, p, a, b, q, r);
    ConditionEvaluates(rt, declared, p, Either(p, "if", "condition"), r, row, n);
    BranchEvaluates(rt, declared, p, "then", "true_value", r, row, n);
    BranchEvaluates(rt, declared, p, "else", "false_value", r, row, n);
    Branches(rt, declared, p, r, row);
  }

  lemma Branches(rt: Runtime, declared: set<string>, p: Fields, r: Fields, row: Row)
    requires E.EvaluateField(rt, r, "condition", row)
          == ConditionAt(rt, declared, p, Either(p, "if", "condition"), row)
    requires E.EvaluateField(rt, r, "true_value", row)
          == LooseAt(rt, declared, p, Either(p, "then", "true_value"), false, row)
    requires E.EvaluateField(rt, r, "false_value", row)
          == LooseAt(rt, declared, p, Either(p, "else", "false_value"), false, row)
    ensures E.EvaluateOperation(rt, "conditional", r, row) == LooseConditional(rt, declared, p, row)
  {}

  // ----- lookups -----

  lemma SourceField(declared: set<string>, a: Fields, b: Fields, q: Fields, r: Fields)
    requires Sourced(declared, a) == Some(b) && OperandAt(declared, b, "default", true) == Some(q)
    requires Nested(declared, q) == Some(r)
    ensures "column" in a ==> "source" in q && q["source"] == Column(a["column"])
    ensures "column" !in a ==> ("source" in r <==> "source" in a)
    ensures "column" !in a && "source" in a ==> Taken(declared, a["source"], false, r["source"])
  {
    OperandAtField(declared, b, "default", true, q, "source");
    NestedField(declared, q, r, "source");
    if "column" !in a {
      OperandAtField(declared, a, "source", false, b, "source");
    }
  }

  lemma SourcedOther(declared: set<string>, a: Fields, b: Fields, key: string)
    requires Sourced(declared, a) == Some(b) && key != "column" && key != "source"
    ensures key in b <==> key in a
    ensures key in a ==> b[key] == a[key]
  {
    if "column" !in a { OperandAtField(declared, a, "source", false, b, key); }
  }

  lemma MappingField(declared: set<string>, a: Fields, b: Fields, q: Fields)
    requires Sourced(declared, a) == Some(b) && OperandAt(declared, b, "default", true) == Some(q)
    ensures "mapping" in q <==> "mapping" in a
    ensures "mapping" in a ==> q["mapping"] == a["mapping"]
  {
    SourcedOther(declared, a, b, "mapping");
    OperandAtField(declared, b, "default", true, q, "mapping");
  }

  lemma DefaultField(declared: set<string>, a: Fields, b: Fields, q: Fields, r: Fields)
    requires Sourced(declared, a) == Some(b) && OperandAt(declared, b, "default", true) == Some(q)
    requires Nested(declared, q) == Some(r)
    ensures "default" in r <==> "default" in a
    ensures "default" in a ==> Taken(declared, a["default"], true, r["default"])
  {
    SourcedOther(declared, a, b, "default");
    OperandAtField(declared, b, "default", true, q, "default");
    NestedField(declared, q, r, "default");
  }

  lemma MapMeans(
    rt: Runtime, declared: set<string>, p: Fields, a: Fields, b: Fields, q: Fields, r: Fields, row: Row, n: nat)
    requires MeansBelow(rt, declared, n, row) && FieldsNesting(p) < n
    requires AliasOperator(p) == Some(a) && Sourced(declared, a) == Some(b)
    requires OperandAt(declared, b, "default", true) == Some(q) && Nested(declared, q) == Some(r)
    ensures E.EvaluateOperation(rt, "map_values", r, row) == LooseMap(rt, declared, p, row)
  {
    AliasedField(p, a, "column");
    AliasedField(p, a, "source");
    AliasedField(p, a, "mapping");
    AliasedField(p, a, "default");
    SourceField(declared, a, b, q, r);
    MappingField(declared, a, b, q);
    DefaultField(declared, a, b, q, r);
    PlainField(declared, p, q, r, "mapping");
    if "column" in p {
      ColumnField(rt, declared, p["column"], q, r, "source", row);
    } else if "source" in p {
      TakenMeans(rt, declared, p, "source", false, r, "source", row, n);
    }
    if "default" in p { TakenMeans(rt, declared, p, "default", true, r, "default", row, n); }
    Lookup(rt, declared, p, r, row);
  }

  lemma Lookup(rt: Runtime, declared: set<string>, p: Fields, r: Fields, row: Row)
    requires E.EvaluateField(rt, r, "source", row)
          == if "column" in p then ColumnCell(rt, p["column"], row) else LooseAt(rt, declared, p, "source", false, row)
    requires Plain(declared, p, "mapping") == Field(r, "mapping")
    requires "default" in r <==> "default" in p
    requires "default" in p ==>
      E.EvaluateField(rt, r, "default", row) == LooseAt(rt, declared, p, "default", true, row)
    ensures E.EvaluateOperation(rt, "map_values", r, row) == LooseMap(rt, declared, p, row)
  {}

  // ----- the theorem -----

  lemma RewrittenParts(declared: set<string>, kind: OperationKind, p: Fields, r: Fields) returns (a: Fields, q: Fields)
    requires Rewritten(declared, kind, p) == Some(r)
    ensures AliasOperator(p) == Some(a) && Parameters(declared, kind, a) == Some(q) && Nested(declared, q) == Some(r)
  {
    a := AliasOperator(p).value;
    q := Parameters(declared, kind, a).value;
  }

  /** What an operation means whose parameters are written loosely. */
  ghost function LooseOperation(
    rt: Runtime, declared: set<string>, kind: OperationKind, p: Fields, row: Row): Outcome<Value>
  {
    match kind
    case Compare => LooseCompare(rt, declared, p, row)
    case Logical => LooseLogical(rt, declared, p, row)
    case Conditional => LooseConditional(rt, declared, p, row)
    case Arithmetic => LooseArithmetic(rt, declared, p, row)
    case MapValues => LooseMap(rt, declared, p, row)
    case _ => Err(BadExpression)
  }

  /** The kinds that have a value on a row. */
  function NameOf(kind: OperationKind): string {
    match kind
    case Compare => "compare"
    case Logical => "logical"
    case Conditional => "conditional"
    case Arithmetic => "arithmetic"
    case MapValues => "map_values"
    case _ => ""
  }

  lemma RewrittenCompare(rt: Runtime, declared: set<string>, p: Fields, r: Fields, row: Row, n: nat)
    requires MeansBelow(rt, declared, n, row) && FieldsNesting(p) < n && Rewritten(declared, Compare, p) == Some(r)
    ensures E.EvaluateOperation(rt, "compare", r, row) == LooseOperation(rt, declared, Compare, p, row)
  {
    var a, q := RewrittenParts(declared, Compare, p, r);
    CompareMeans(rt, declared, p, a, q, r, row, n);
  }

  lemma RewrittenLogical(rt: Runtime, declared: set<string>, p: Fields, r: Fields, row: Row, n: nat)
    requires MeansBelow(rt, declared, n, row) && FieldsNesting(p) < n && Rewritten(declared, Logical, p) == Some(r)
    ensures E.EvaluateOperation(rt, "logical", r, row) == LooseOperation(rt, declared, Logical, p, row)
  {
    var a, q := RewrittenParts(declared, Logical, p, r);
    LogicalMeans(rt, declared, p, a, Move(a, "conditions", "operands").value, q, r, row, n);
  }

  lemma RewrittenConditional(rt: Runtime, declared: set<string>, p: Fields, r: Fields, row: Row, n: nat)
    requires MeansBelow(rt, declared, n, row) && FieldsNesting(p) < n && Rewritten(declared, Conditional, p) == Some(r)
    ensures E.EvaluateOperation(rt, "conditional", r, row) == LooseOperation(rt, declared, Conditional, p, row)
  {
    var a, q := RewrittenParts(declared, Conditional, p, r);
    ConditionalMeans(rt, declared, p, a, ConditionalNames(a).value, q, r, row, n);
  }

  lemma RewrittenArithmetic(rt: Runtime, declared: set<string>, p: Fields, r: Fields, row: Row, n: nat)
    requires MeansBelow(rt, declared, n, row) && FieldsNesting(p) < n && Rewritten(declared, Arithmetic, p) == Some(r)
    ensures E.EvaluateOperation(rt, "arithmetic", r, row) == LooseOperation(rt, declared, Arithmetic, p, row)
  {
    var a, q := RewrittenParts(declared, Arithmetic, p, r);
    ArithmeticMeans(rt, declared, p, a, q, r, row, n);
  }

  lemma RewrittenMapValues(rt: Runtime, declared: set<string>, p: Fields, r: Fields, row: Row, n: nat)
    requires MeansBelow(rt, declared, n, row) && FieldsNesting(p) < n && Rewritten(declared, MapValues, p) == Some(r)
    ensures E.EvaluateOperation(rt, "map_values", r, row) == LooseOperation(rt, declared, MapValues, p, row)
  {
    var a, q := RewrittenParts(declared, MapValues, p, r);
    MapMeans(rt, declared, p, a, Sourced(declared, a).value, q, r, row, n);
  }

  lemma RewrittenMeans(
    rt: Runtime, declared: set<string>, kind: OperationKind, p: Fields, r: Fields, row: Row, n: nat)
    requires MeansBelow(rt, declared, n, row) && FieldsNesting(p) < n && NameOf(kind) != ""
    requires Rewritten(declared, kind, p) == Some(r)
    ensures E.EvaluateOperation(rt, NameOf(kind), r, row) == LooseOperation(rt, declared, kind, p, row)
  {
    match kind {
      case Compare => RewrittenCompare(rt, declared, p, r, row, n);
      case Logical => RewrittenLogical(rt, declared, p, r, row, n);
      case Conditional => RewrittenConditional(rt, declared, p, r, row, n);
      case Arithmetic => RewrittenArithmetic(rt, declared, p, r, row, n);
      case MapValues => RewrittenMapValues(rt, declared, p, r, row, n);
      case _ =>
    }
  }

  lemma LooseIs(rt: Runtime, declared: set<string>, v: Value, row: Row)
    requires IsOperation(v)
    ensures var operation, p := v.entries["operation"].text, v.entries["parameters"].entries;
      Loose(rt, declared, v, row) == LooseOperation(rt, declared, KindOf(operation), p, row)
  {}

  /** Any other operation has no value on a row. */
  lemma NoValue(rt: Runtime, operation: string, p: Fields, row: Row)
    requires NameOf(KindOf(operation)) == ""
    ensures E.EvaluateOperation(rt, operation, p, row) == Err(BadExpression)
  {}

  lemma KindNamed(operation: string)
    ensures NameOf(KindOf(operation)) != "" ==> NameOf(KindOf(operation)) == operation
  {}

  lemma OperationEvaluates(rt: Runtime, v: Value, row: Row)
    requires IsOperation(v)
    ensures E.Evaluate(rt, v, row)
         == E.EvaluateOperation(rt, v.entries["operation"].text, v.entries["parameters"].entries, row)
  {
    assert "operation" in v.entries.Keys && "parameters" in v.entries.Keys;
    assert "operation" !in {"column"} && "operation" !in {"literal"};
  }

  lemma NormalizedParts(declared: set<string>, v: Value, u: Value)
    requires IsOperation(v) && Normalize(declared, v) == Some(u)
    ensures IsOperation(u) && u.entries["operation"] == v.entries["operation"]
    ensures Rewritten(declared, KindOf(v.entries["operation"].text), v.entries["parameters"].entries)
         == Some(u.entries["parameters"].entries)
  {}

  lemma OperationMeans(rt: Runtime, declared: set<string>, v: Value, u: Value, row: Row)
    requires MeansBelow(rt, declared, Nesting(v), row)
    requires IsOperation(v) && Normalize(declared, v) == Some(u)
    ensures E.Evaluate(rt, u, row) == Loose(rt, declared, v, row)
  {
    var operation := v.entries["operation"].text;
    var p, r := v.entries["parameters"].entries, u.entries["parameters"].entries;
    NormalizedParts(declared, v, u);
    OperationEvaluates(rt, u, row);
    LooseIs(rt, declared, v, row);
    KindNamed(operation);
    ParametersShallower(v);
    if NameOf(KindOf(operation)) != "" {
      RewrittenMeans(rt, declared, KindOf(operation), p, r, row, Nesting(v));
    } else {
      NoValue(rt, operation, r, row);
      NoLooseValue(rt, declared, KindOf(operation), p, row);
    }
  }

  lemma NoLooseValue(rt: Runtime, declared: set<string>, kind: OperationKind, p: Fields, row: Row)
    requires NameOf(kind) == ""
    ensures LooseOperation(rt, declared, kind, p, row) == Err(BadExpression)
  {}

  /**
   Evaluating a normalised expression gives what its loose form means, on every row, and fails in the
   same way.
   */
  lemma {:induction false} NormalizeMeans(rt: Runtime, declared: set<string>, v: Value, row: Row)
    requires Normalize(declared, v).Some?
    ensures E.Evaluate(rt, Normalize(declared, v).value, row) == Loose(rt, declared, v, row)
    decreases Nesting(v)
  {
    if IsOperation(v) {
      forall w | Nesting(w) < Nesting(v) ensures Means(rt, declared, w, row) {
        if Normalize(declared, w).Some? { NormalizeMeans(rt, declared, w, row); }
      }
      OperationMeans(rt, declared, v, Normalize(declared, v).value, row);
    }
  }
}
