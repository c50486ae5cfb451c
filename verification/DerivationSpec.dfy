/**
 The normaliser of model-written derivation expressions: arbitrary JSON trees in which a few
 unambiguous aliases are rewritten into one contract form.
 Follows `_normalize_derivation_spec` in agent_runtime/data_selection/agent.py.
 `None` is a raised error, which makes the caller ask the model again.
 */
module DerivationSpec {
  import opened Values

  const ALIASES: map<string, string> := map[
    "==" := "eq", "=" := "eq", "!=" := "neq", "<>" := "neq", ">" := "gt", ">=" := "gte", "<" := "lt", "<=" := "lte"]

  const FLAT_KEYS := {"column", "operator", "value"}

  function Column(v: Value): Value { Dict(map["column" := v]) }

  function Literal(v: Value): Value { Dict(map["literal" := v]) }

  /** A comparison written without an operation. */
  predicate Flat(m: Fields) { "operation" !in m && FLAT_KEYS <= m.Keys }

  // ----- how deeply expressions are nested -----

  ghost function Top(s: set<nat>): (n: nat)
    ensures forall x | x in s :: x <= n
    ensures n == 0 || n in s
  {
    if s == {} then 0
    else
      var x :| x in s;
      var rest := Top(s - {x});
      assert forall y | y in s :: y == x || y in s - {x};
      if x > rest then x else rest
  }

  ghost function Nesting(v: Value): nat
    decreases v, 1
  {
    match v
    case List(xs) => ItemsNesting(xs)
    case Dict(m) => Deepens(m) + FieldsNesting(m)
    case _ => 0
  }

  function Deepens(m: Fields): nat { if "operation" in m || Flat(m) then 1 else 0 }

  ghost function ItemsNesting(xs: seq<Value>): (n: nat)
    ensures forall i | 0 <= i < |xs| :: Nesting(xs[i]) <= n
    ensures n == 0 || exists i :: 0 <= i < |xs| && Nesting(xs[i]) == n
    decreases List(xs), 0
  {
    var inner := set i | 0 <= i < |xs| :: Nesting(xs[i]);
    assert forall i | 0 <= i < |xs| :: Nesting(xs[i]) in inner;
    Top(inner)
  }

  ghost function FieldsNesting(m: Fields): (n: nat)
    ensures forall k | k in m :: Nesting(m[k]) <= n
    ensures n == 0 || exists k :: k in m && Nesting(m[k]) == n
    decreases Dict(m), 0
  {
    var inner := set k | k in m :: Nesting(m[k]);
    assert forall k | k in m :: Nesting(m[k]) in inner;
    Top(inner)
  }

  ghost predicate Shallower(a: Fields, b: Fields) { FieldsNesting(a) <= FieldsNesting(b) && Deepens(a) <= Deepens(b) }

  lemma SingleWithin(key: string, v: Value)
    requires key == "column" || key == "literal"
    ensures Nesting(Dict(map[key := v])) == Nesting(v)
  {
    var m: Fields := map[key := v];
    assert FieldsNesting(m) == Nesting(v) by { assert m[key] == v; }
    assert "value" !in m;
  }

  /** Replacing the parameters by ones that are nested no deeper. */
  lemma ParametersWithin(m: Fields, p: Fields)
    requires IsOperation(Dict(m)) && Shallower(p, m["parameters"].entries)
    ensures Nesting(Dict(m["parameters" := Dict(p)])) <= Nesting(Dict(m))
  {
    var after := m["parameters" := Dict(p)];
    assert after.Keys == m.Keys;
    assert Nesting(Dict(p)) <= Nesting(m["parameters"]);
    assert FieldsNesting(after) <= FieldsNesting(m);
  }

  lemma ParametersShallower(v: Value)
    requires IsOperation(v)
    ensures FieldsNesting(v.entries["parameters"].entries) < Nesting(v)
  {
    assert Nesting(v.entries["parameters"]) <= FieldsNesting(v.entries);
  }

  /** Replacing one value by one that is nested no deeper than the rest. */
  lemma UpdatedWithin(p: Fields, key: string, v: Value)
    requires key in p && Nesting(v) <= Nesting(p[key])
    ensures Shallower(p[key := v], p)
  {
    var q := p[key := v];
    assert q.Keys == p.Keys;
    forall k | k in q ensures Nesting(q[k]) <= FieldsNesting(p) { assert k in p && Nesting(p[k]) <= FieldsNesting(p); }
    NestingBound(q, FieldsNesting(p));
  }

  lemma NestingBound(q: Fields, n: nat)
    requires forall k | k in q :: Nesting(q[k]) <= n
    ensures FieldsNesting(q) <= n
  {}

  /** Giving a value another name, of no special meaning. */
  lemma MovedWithin(p: Fields, name: string, target: string, v: Value)
    requires name in p && target !in FLAT_KEYS + {"operation"} && Nesting(v) <= Nesting(p[name])
    ensures Shallower((p - {name})[target := v], p)
  {
    var q := (p - {name})[target := v];
    assert forall k | k in q :: Nesting(q[k]) <= FieldsNesting(p);
    assert forall k | k in FLAT_KEYS + {"operation"} && k in q :: k in p;
  }

  lemma FieldsWithin(q: Fields, p: Fields)
    requires q.Keys == p.Keys && forall k | k in p :: Nesting(q[k]) <= Nesting(p[k])
    ensures Shallower(q, p)
  {
    assert forall k | k in q :: Nesting(q[k]) <= FieldsNesting(p);
  }

  lemma ItemsWithin(ys: seq<Value>, xs: seq<Value>)
    requires |ys| == |xs| && forall i | 0 <= i < |xs| :: Nesting(ys[i]) <= Nesting(xs[i])
    ensures ItemsNesting(ys) <= ItemsNesting(xs)
  {
    assert forall i | 0 <= i < |ys| :: Nesting(ys[i]) <= ItemsNesting(xs);
  }

  predicate SameBut(a: Fields, b: Fields, key: string) {
    a.Keys == b.Keys && forall k | k in a && k != key :: b[k] == a[k]
  }

  // ----- the rewriting that does not recurse -----

  /** `aliases.get(operator, operator)`; an unhashable operator raises. */
  function Alias(v: Value): Option<Value> {
    if !Hashable(v) then None
    else Some(if v.Str? && v.text in ALIASES then Str(ALIASES[v.text]) else v)
  }

  function AliasOperator(p: Fields): (r: Option<Fields>)
    ensures r.Some? ==> Shallower(r.value, p)
  {
    if "operator" !in p then Some(p)
    else
      match Alias(p["operator"])
      case None => None
      case Some(o) =>
        UpdatedWithin(p, "operator", o);
        Some(p["operator" := o])
  }

  /** Renames a parameter; both names at once raise. */
  function Move(p: Fields, name: string, target: string): (r: Option<Fields>)
    requires name !in FLAT_KEYS + {"operation"} && target !in FLAT_KEYS + {"operation"}
    ensures r.Some? ==> Shallower(r.value, p)
  {
    if name !in p then Some(p)
    else if target in p then None
    else
      MovedWithin(p, name, target, p[name]);
      Some((p - {name})[target := p[name]])
  }

  // ----- the normaliser -----

  datatype OperationKind =
    | DatePart | Bucketize | Compare | Logical | Conditional | Arithmetic | MapValues | Aggregation | Unknown

  function KindOf(operation: string): OperationKind {
    if operation == "date_part" then DatePart
    else if operation == "bucketize" then Bucketize
    else if operation == "compare" then Compare
    else if operation == "logical" then Logical
    else if operation == "conditional" then Conditional
    else if operation == "arithmetic" then Arithmetic
    else if operation == "map_values" then MapValues
    else if operation == "aggregate" then Aggregation
    else Unknown
  }

  /** `normalize_expression`; anything but an operation with parameters is left alone. */
  function Normalize(declared: set<string>, v: Value): (r: Option<Value>)
    ensures r.Some? ==> Nesting(r.value) <= Nesting(v)
    ensures r.Some? && v.Dict? ==> r.value.Dict? && SameBut(v.entries, r.value.entries, "parameters")
    ensures !v.Dict? ==> r == Some(v)
    decreases Nesting(v), 0
  {
    if !IsOperation(v) then Some(v)
    else
      var m := v.entries;
      ParametersShallower(v);
      match Rewritten(declared, KindOf(m["operation"].text), m["parameters"].entries)
      case None => None
      case Some(p) =>
        ParametersWithin(m, p);
        Some(Dict(m["parameters" := Dict(p)]))
  }

  /** All that happens to the parameters: operator aliases, the operation's own forms, nested expressions. */
  function Rewritten(declared: set<string>, kind: OperationKind, p: Fields): (r: Option<Fields>)
    ensures r.Some? ==> Shallower(r.value, p)
    decreases FieldsNesting(p), 9
  {
    match AliasOperator(p) case None => None case Some(aliased) =>
    match Parameters(declared, kind, aliased) case None => None case Some(q) =>
    Nested(declared, q)
  }

  predicate IsOperation(v: Value) {
    v.Dict? && "operation" in v.entries && v.entries["operation"].Str?
    && "parameters" in v.entries && v.entries["parameters"].Dict?
  }

  /** An operand: a dictionary stays one, a declared name becomes a column, the rest a literal. */
  function Operand(declared: set<string>, v: Value, literal: bool): (r: Option<Value>)
    ensures r.Some? ==> r.value.Dict? && Nesting(r.value) <= Nesting(v)
    decreases Nesting(v), 1
  {
    SingleWithin("column", v);
    SingleWithin("literal", v);
    if v.Dict? then Normalize(declared, v)
    else if v.Str? && v.text in declared && !literal then Some(Column(v))
    else Some(Literal(v))
  }

  function FlatCompare(declared: set<string>, v: Value): (r: Option<Value>)
    requires v.Dict?
    ensures r.Some? ==> r.value.Dict? && !Flat(r.value.entries) && Nesting(r.value) <= Nesting(v)
    decreases Nesting(v), 1
  {
    var m := v.entries;
    if "operation" in m then Normalize(declared, v)
    else if !Flat(m) then Some(v)
    else if m.Keys != FLAT_KEYS || !m["column"].Str? || m["column"].text == "" then None
    else
      match Alias(m["operator"])
      case None => None
      case Some(o) =>
        ComparisonWithin(m, o);
        Some(Comparison(o, m["column"], m["value"]))
  }

  function Comparison(operator: Value, column: Value, value: Value): Value {
    Dict(map[
      "operation" := Str("compare"),
      "parameters" := Dict(map[
        "operator" := operator, "left" := Column(column), "right" := if value.Dict? then value else Literal(value)])])
  }

  lemma OperandsWithin(operator: Value, left: Value, right: Value, n: nat)
    requires Nesting(operator) <= n && Nesting(left) <= n && Nesting(right) <= n
    ensures Nesting(Dict(map["operator" := operator, "left" := left, "right" := right])) <= n
  {
    var p: Fields := map["operator" := operator, "left" := left, "right" := right];
    assert forall k | k in p :: Nesting(p[k]) <= n;
    assert FieldsNesting(p) <= n;
    assert "operation" !in p && "value" !in p;
  }

  lemma ExpressionWithin(p: Value, n: nat)
    requires Nesting(p) <= n
    ensures Nesting(Dict(map["operation" := Str("compare"), "parameters" := p])) <= n + 1
  {
    var e: Fields := map["operation" := Str("compare"), "parameters" := p];
    assert forall k | k in e :: Nesting(e[k]) <= n;
    assert FieldsNesting(e) <= n;
  }

  lemma ComparisonWithin(m: Fields, operator: Value)
    requires Flat(m) && Hashable(operator)
    ensures Nesting(Comparison(operator, m["column"], m["value"])) <= Nesting(Dict(m))
  {
    var n := FieldsNesting(m);
    assert Nesting(m["column"]) <= n && Nesting(m["value"]) <= n;
    SingleWithin("column", m["column"]);
    SingleWithin("literal", m["value"]);
    var right := if m["value"].Dict? then m["value"] else Literal(m["value"]);
    OperandsWithin(operator, Column(m["column"]), right, n);
    var p := Dict(map["operator" := operator, "left" := Column(m["column"]), "right" := right]);
    ExpressionWithin(p, n);
    assert Comparison(operator, m["column"], m["value"]) == Dict(map["operation" := Str("compare"), "parameters" := p]);
  }

  /** A comparison's parameters once the `column` and `value` aliases are operands. */
  function Unaliased(p: Fields, right: Value): Fields
    requires "column" in p
  {
    (p - {"column", "value"})["left" := Column(p["column"])]["right" := right]
  }

  lemma UnaliasedWithin(p: Fields, right: Value)
    requires "column" in p && Nesting(right) <= FieldsNesting(p)
    ensures Shallower(Unaliased(p, right), p)
  {
    SingleWithin("column", p["column"]);
    var q := Unaliased(p, right);
    assert forall k | k in q :: Nesting(q[k]) <= FieldsNesting(p);
    assert FieldsNesting(q) <= FieldsNesting(p);
    assert "column" !in q;
  }

  function Items(declared: set<string>, xs: seq<Value>, flat: bool): (r: Option<seq<Value>>)
    ensures r.Some? ==> |r.value| == |xs| && ItemsNesting(r.value) <= ItemsNesting(xs)
    decreases ItemsNesting(xs), 3
  {
    if forall i | 0 <= i < |xs| :: Item(declared, xs, i, flat).Some? then
      var ys := seq(|xs|, i requires 0 <= i < |xs| => Item(declared, xs, i, flat).value);
      Some(ys)
    else None
  }

  function Item(declared: set<string>, xs: seq<Value>, i: nat, flat: bool): (r: Option<Value>)
    requires i < |xs| && Nesting(xs[i]) <= ItemsNesting(xs)
    ensures r.Some? ==> r.value.Dict? && Nesting(r.value) <= Nesting(xs[i])
    decreases Nesting(xs[i]), 2
  {
    if flat && xs[i].Dict? then FlatCompare(declared, xs[i]) else Operand(declared, xs[i], false)
  }

  /** `parameters[key] = operand(parameters[key])` when the key is there. */
  function OperandAt(declared: set<string>, p: Fields, key: string, literal: bool): (r: Option<Fields>)
    ensures r.Some? ==> Shallower(r.value, p)
    decreases FieldsNesting(p), 2
  {
    if key !in p then Some(p)
    else
      match Operand(declared, p[key], literal)
      case None => None
      case Some(v) =>
        UpdatedWithin(p, key, v);
        Some(p[key := v])
  }

  /** The `column` alias of `source`. */
  function Sourced(declared: set<string>, p: Fields): (r: Option<Fields>)
    ensures r.Some? ==> Shallower(r.value, p)
    decreases FieldsNesting(p), 3
  {
    if "column" !in p then OperandAt(declared, p, "source", false)
    else if "source" in p then None
    else
      SingleWithin("column", p["column"]);
      MovedWithin(p, "column", "source", Column(p["column"]));
      Some((p - {"column"})["source" := Column(p["column"])])
  }

  function ItemsAt(declared: set<string>, p: Fields, key: string, flat: bool): (r: Option<Fields>)
    ensures r.Some? ==> Shallower(r.value, p)
    decreases FieldsNesting(p), 4
  {
    if key !in p || !p[key].List? then Some(p)
    else
      match Items(declared, p[key].items, flat)
      case None => None
      case Some(xs) =>
        UpdatedWithin(p, key, List(xs));
        Some(p[key := List(xs)])
  }

  function Metric(declared: set<string>, v: Value): (r: Option<Value>)
    ensures r.Some? ==> Nesting(r.value) <= Nesting(v) && (v.Dict? <==> r.value.Dict?)
    decreases Nesting(v), 4
  {
    if !v.Dict? then Some(v)
    else match Sourced(declared, v.entries) case None => None case Some(m) => Some(Dict(m))
  }

  function Metrics(declared: set<string>, xs: seq<Value>): (r: Option<seq<Value>>)
    ensures r.Some? ==> |r.value| == |xs| && ItemsNesting(r.value) <= ItemsNesting(xs)
    decreases ItemsNesting(xs), 5
  {
    assert forall i | 0 <= i < |xs| :: Nesting(xs[i]) <= ItemsNesting(xs);
    if forall i | 0 <= i < |xs| :: Metric(declared, xs[i]).Some? then
      var ys := seq(|xs|, i requires 0 <= i < |xs| => Metric(declared, xs[i]).value);
      ItemsWithin(ys, xs);
      Some(ys)
    else None
  }

  function Compared(declared: set<string>, p: Fields): (r: Option<Fields>)
    ensures r.Some? ==> Shallower(r.value, p)
    decreases FieldsNesting(p), 3
  {
    if "column" in p || "value" in p then
      if "left" in p || "right" in p || "column" !in p || "value" !in p then None
      else
        match Operand(declared, p["value"], true)
        case None => None
        case Some(v) =>
          UnaliasedWithin(p, v);
          Some(Unaliased(p, v))
    else
      match OperandAt(declared, p, "left", false)
      case None => None
      case Some(q) => OperandAt(declared, q, "right", true)
  }

  function Condition(declared: set<string>, p: Fields): (r: Option<Fields>)
    ensures r.Some? ==> Shallower(r.value, p)
    decreases FieldsNesting(p), 3
  {
    if "condition" !in p || p["condition"].Null? then Some(p)
    else if p["condition"].Dict? then
      match FlatCompare(declared, p["condition"])
      case None => None
      case Some(v) =>
        UpdatedWithin(p, "condition", v);
        Some(p["condition" := v])
    else OperandAt(declared, p, "condition", false)
  }

  function ConditionalNames(p: Fields): (r: Option<Fields>)
    ensures r.Some? ==> Shallower(r.value, p)
  {
    match Move(p, "if", "condition") case None => None case Some(p1) =>
    match Move(p1, "then", "true_value") case None => None case Some(p2) =>
    Move(p2, "else", "false_value")
  }

  function ConditionalValues(declared: set<string>, p: Fields): (r: Option<Fields>)
    ensures r.Some? ==> Shallower(r.value, p)
    decreases FieldsNesting(p), 4
  {
    match Condition(declared, p) case None => None case Some(q) =>
    match OperandAt(declared, q, "true_value", false) case None => None case Some(r) =>
    OperandAt(declared, r, "false_value", false)
  }

  function Aggregate(declared: set<string>, p: Fields): (r: Option<Fields>)
    ensures r.Some? ==> Shallower(r.value, p)
    decreases FieldsNesting(p), 7
  {
    match ItemsAt(declared, p, "group_by", false) case None => None case Some(q) => MetricsAt(declared, q)
  }

  function MetricsAt(declared: set<string>, p: Fields): (r: Option<Fields>)
    ensures r.Some? ==> Shallower(r.value, p)
    decreases FieldsNesting(p), 6
  {
    if "metrics" !in p || !p["metrics"].List? then Some(p)
    else
      match Metrics(declared, p["metrics"].items)
      case None => None
      case Some(xs) =>
        UpdatedWithin(p, "metrics", List(xs));
        Some(p["metrics" := List(xs)])
  }

  /** The rewriting of one operation's parameters. */
  function Parameters(declared: set<string>, kind: OperationKind, p: Fields): (r: Option<Fields>)
    ensures r.Some? ==> Shallower(r.value, p)
    decreases FieldsNesting(p), 8
  {
    match kind
    case DatePart => (match Move(p, "date_part", "part") case None => None case Some(q) => Sourced(declared, q))
    case Bucketize => Sourced(declared, p)
    case Compare => Compared(declared, p)
    case Logical =>
      (match Move(p, "conditions", "operands") case None => None case Some(q) => ItemsAt(declared, q, "operands", true))
    case Conditional => (match ConditionalNames(p) case None => None case Some(q) => ConditionalValues(declared, q))
    case Arithmetic => ItemsAt(declared, p, "operands", false)
    case MapValues =>
      (match Sourced(declared, p) case None => None case Some(q) => OperandAt(declared, q, "default", true))
    case Aggregation => Aggregate(declared, p)
    case Unknown => Some(p)
  }

  /** The last loop: every nested expression directly in a parameter, or in a parameter's list. */
  function NestedValue(declared: set<string>, v: Value): (r: Option<Value>)
    ensures r.Some? ==> Nesting(r.value) <= Nesting(v)
    decreases Nesting(v), 2
  {
    if !v.List? then Normalize(declared, v)
    else if forall i | 0 <= i < |v.items| :: Normalize(declared, v.items[i]).Some? then
      var ys := seq(|v.items|, i requires 0 <= i < |v.items| => Normalize(declared, v.items[i]).value);
      Some(List(ys))
    else None
  }

  function Nested(declared: set<string>, p: Fields): (r: Option<Fields>)
    ensures r.Some? ==> Shallower(r.value, p) && r.value.Keys == p.Keys
    decreases FieldsNesting(p), 3
  {
    assert forall k | k in p :: Nesting(p[k]) <= FieldsNesting(p);
    if forall k | k in p :: NestedValue(declared, p[k]).Some? then
      var q := map k | k in p :: NestedValue(declared, p[k]).value;
      FieldsWithin(q, p);
      Some(q)
    else None
  }
}
