/**
 What an expression computes, stated from the values of its operands: the order and equality of
 numbers and texts, truth, branching, exact arithmetic with its zero policies, and lookup.
 */
module ExpressionMeaning {
  import opened Values
  import opened Expressions

  // ----- values -----

  /** `a` comes before `b` at their first difference, or by ending there. */
  ghost predicate Precedes(a: string, b: string) {
    exists k :: 0 <= k <= |a| && k < |b| && a[..k] == b[..k] && (k == |a| || a[k] < b[k])
  }

  lemma {:induction false} TextLessMeans(a: string, b: string)
    ensures TextLess(a, b) <==> Precedes(a, b)
  {
    if a != "" && b != "" {
      if a[0] == b[0] {
        TextLessMeans(a[1..], b[1..]);
        SharedHead(a, b);
      } else {
        assert a[..0] == b[..0];
        forall k | 0 < k <= |a| && k < |b| ensures a[..k] != b[..k] { assert a[..k][0] != b[..k][0]; }
      }
    } else if b != "" {
      assert a[..0] == b[..0];
    }
  }

  lemma SharedHead(a: string, b: string)
    requires a != "" && b != "" && a[0] == b[0]
    ensures Precedes(a, b) <==> Precedes(a[1..], b[1..])
  {
    if Precedes(a, b) {
      var k :| 0 <= k <= |a| && k < |b| && a[..k] == b[..k] && (k == |a| || a[k] < b[k]);
      assert k > 0;
      assert a[1..][..k - 1] == a[..k][1..] && b[1..][..k - 1] == b[..k][1..];
    }
    if Precedes(a[1..], b[1..]) {
      var k :| 0 <= k <= |a[1..]| && k < |b[1..]| && a[1..][..k] == b[1..][..k]
        && (k == |a[1..]| || a[1..][k] < b[1..][k]);
      assert a[..k + 1] == [a[0]] + a[1..][..k] && b[..k + 1] == [b[0]] + b[1..][..k];
    }
  }

  predicate SameItems(a: seq<Value>, b: seq<Value>) {
    |a| == |b| && forall i | 0 <= i < |a| :: PyEqual(a[i], b[i])
  }

  predicate SameEntries(a: Fields, b: Fields) { a.Keys == b.Keys && forall k | k in a :: PyEqual(a[k], b[k]) }

  /** Equality of two values: numbers by size, whatever their type, and containers member by member. */
  lemma EqualMeans(a: Value, b: Value)
    ensures IsNumber(a) && IsNumber(b) ==> (PyEqual(a, b) <==> AsReal(a) == AsReal(b))
    ensures IsNumber(a) != IsNumber(b) || a.Str? != b.Str? || a.Null? != b.Null? || a.List? != b.List?
        ==> !PyEqual(a, b)
    ensures a.Str? && b.Str? ==> (PyEqual(a, b) <==> a.text == b.text)
    ensures a.Null? && b.Null? ==> PyEqual(a, b)
    ensures a.List? && b.List? ==> (PyEqual(a, b) <==> SameItems(a.items, b.items))
    ensures a.Dict? && b.Dict? ==> (PyEqual(a, b) <==> SameEntries(a.entries, b.entries))
  {
    if a.List? && b.List? { ListEqualMeans(a, b); }
    if a.Dict? && b.Dict? { DictEqualMeans(a, b); }
  }

  lemma ListEqualMeans(a: Value, b: Value)
    requires a.List? && b.List?
    ensures PyEqual(a, b) <==> SameItems(a.items, b.items)
  {
    if PyEqual(a, b) {
      forall i | 0 <= i < |a.items| ensures PyEqual(a.items[i], b.items[i]) {
        assert Canon(a).items[i] == Canon(b).items[i];
      }
    }
    if SameItems(a.items, b.items) {
      assert Canon(a).items == Canon(b).items;
    }
  }

  lemma DictEqualMeans(a: Value, b: Value)
    requires a.Dict? && b.Dict?
    ensures PyEqual(a, b) <==> SameEntries(a.entries, b.entries)
  {
    if PyEqual(a, b) {
      assert Canon(a).entries.Keys == a.entries.Keys && Canon(b).entries.Keys == b.entries.Keys;
      forall k | k in a.entries ensures PyEqual(a.entries[k], b.entries[k]) {
        assert Canon(a).entries[k] == Canon(b).entries[k];
      }
    }
    if SameEntries(a.entries, b.entries) {
      assert Canon(a).entries == Canon(b).entries;
    }
  }

  /** The order of two lists is that of their first unequal members, or of their lengths. */
  lemma {:induction false} ListOrderMeans(a: seq<Value>, b: seq<Value>) returns (k: nat)
    ensures k <= |a| && k <= |b| && forall i | 0 <= i < k :: PyEqual(a[i], b[i])
    ensures ListLess(a, b) == if k == |a| || k == |b| then Some(|a| < |b|) else PyLess(a[k], b[k])
    ensures k < |a| && k < |b| ==> !PyEqual(a[k], b[k])
    decreases |a|
  {
    k := 0;
    if a != [] && b != [] && PyEqual(a[0], b[0]) {
      var n := ListOrderMeans(a[1..], b[1..]);
      k := n + 1;
      forall i | 0 <= i < k ensures PyEqual(a[i], b[i]) { assert i > 0 ==> PyEqual(a[1..][i - 1], b[1..][i - 1]); }
    }
  }

  // ----- comparisons -----

  /** The comparison's operands have these values, and its operator this name. */
  ghost predicate Compared(rt: Runtime, ps: Fields, row: Row, a: Value, b: Value, operator: string) {
    && "left" in ps && "right" in ps && "operator" in ps && Text(rt, ps["operator"]) == operator
    && Evaluate(rt, ps["left"], row) == Ok(a) && Evaluate(rt, ps["right"], row) == Ok(b)
  }

  lemma ComparedValues(rt: Runtime, ps: Fields, row: Row, a: Value, b: Value, operator: string)
    requires Compared(rt, ps, row, a, b, operator)
    ensures EvaluateOperation(rt, "compare", ps, row)
         == match Compare(a, b, operator) case Ok(flag) => Ok(Bool(flag)) case Err(e) => Err(e)
  {}

  lemma NumbersCompare(a: Value, b: Value, operator: string)
    requires IsNumber(a) && IsNumber(b)
    ensures Compare(a, b, operator) == match operator
      case "eq" => Ok(AsReal(a) == AsReal(b))
      case "neq" => Ok(AsReal(a) != AsReal(b))
      case "gt" => Ok(AsReal(a) > AsReal(b))
      case "gte" => Ok(AsReal(a) >= AsReal(b))
      case "lt" => Ok(AsReal(a) < AsReal(b))
      case "lte" => Ok(AsReal(a) <= AsReal(b))
      case "in" => Ok(false)
      case _ => Err(MissingKey(operator))
  {
    assert PyEqual(a, b) <==> AsReal(a) == AsReal(b);
  }

  lemma TextsCompare(a: Value, b: Value, operator: string)
    requires a.Str? && b.Str?
    ensures Compare(a, b, operator) == match operator
      case "eq" => Ok(a.text == b.text)
      case "neq" => Ok(a.text != b.text)
      case "gt" => Ok(TextLess(b.text, a.text))
      case "gte" => Ok(TextLess(b.text, a.text) || a.text == b.text)
      case "lt" => Ok(TextLess(a.text, b.text))
      case "lte" => Ok(TextLess(a.text, b.text) || a.text == b.text)
      case "in" => Ok(false)
      case _ => Err(MissingKey(operator))
  {
    assert PyEqual(a, b) <==> a.text == b.text;
  }

  lemma CompareNumbers(rt: Runtime, ps: Fields, row: Row, a: Value, b: Value, operator: string)
    requires Compared(rt, ps, row, a, b, operator) && IsNumber(a) && IsNumber(b)
    ensures EvaluateOperation(rt, "compare", ps, row) == match operator
      case "eq" => Ok(Bool(AsReal(a) == AsReal(b)))
      case "neq" => Ok(Bool(AsReal(a) != AsReal(b)))
      case "gt" => Ok(Bool(AsReal(a) > AsReal(b)))
      case "gte" => Ok(Bool(AsReal(a) >= AsReal(b)))
      case "lt" => Ok(Bool(AsReal(a) < AsReal(b)))
      case "lte" => Ok(Bool(AsReal(a) <= AsReal(b)))
      case "in" => Ok(Bool(false))
      case _ => Err(MissingKey(operator))
  {
    ComparedValues(rt, ps, row, a, b, operator);
    NumbersCompare(a, b, operator);
  }

  lemma CompareTexts(rt: Runtime, ps: Fields, row: Row, a: Value, b: Value, operator: string)
    requires Compared(rt, ps, row, a, b, operator) && a.Str? && b.Str?
    ensures EvaluateOperation(rt, "compare", ps, row) == match operator
      case "eq" => Ok(Bool(a.text == b.text))
      case "neq" => Ok(Bool(a.text != b.text))
      case "gt" => Ok(Bool(Precedes(b.text, a.text)))
      case "gte" => Ok(Bool(Precedes(b.text, a.text) || a.text == b.text))
      case "lt" => Ok(Bool(Precedes(a.text, b.text)))
      case "lte" => Ok(Bool(Precedes(a.text, b.text) || a.text == b.text))
      case "in" => Ok(Bool(false))
      case _ => Err(MissingKey(operator))
  {
    ComparedValues(rt, ps, row, a, b, operator);
    TextsCompare(a, b, operator);
    TextLessMeans(a.text, b.text);
    TextLessMeans(b.text, a.text);
  }

  /** Values of different kinds, null and dictionaries, which Python does not order. */
  predicate Unordered(a: Value, b: Value) {
    a.Null? || b.Null? || a.Dict? || b.Dict? || IsNumber(a) != IsNumber(b) || a.Str? != b.Str?
  }

  predicate BothEmptyOrSame(a: Value, b: Value) {
    (a.Null? && b.Null?) || (a.Dict? && b.Dict? && SameEntries(a.entries, b.entries))
  }

  lemma UnorderedCompare(a: Value, b: Value, operator: string)
    requires Unordered(a, b)
    ensures operator !in {"eq", "neq", "in"} ==> Compare(a, b, operator) == Ok(false)
    ensures PyEqual(a, b) <==> BothEmptyOrSame(a, b)
  {
    EqualMeans(a, b);
  }

  /** No order holds between unordered values; they can still be equal. */
  lemma CompareUnordered(rt: Runtime, ps: Fields, row: Row, a: Value, b: Value, operator: string)
    requires Compared(rt, ps, row, a, b, operator) && Unordered(a, b) && operator != "in"
    ensures EvaluateOperation(rt, "compare", ps, row) == match operator
      case "eq" => Ok(Bool(BothEmptyOrSame(a, b)))
      case "neq" => Ok(Bool(!BothEmptyOrSame(a, b)))
      case _ => Ok(Bool(false))
  {
    ComparedValues(rt, ps, row, a, b, operator);
    UnorderedCompare(a, b, operator);
  }

  lemma CompareMember(rt: Runtime, ps: Fields, row: Row, a: Value, b: Value)
    requires Compared(rt, ps, row, a, b, "in")
    ensures EvaluateOperation(rt, "compare", ps, row)
         == Ok(Bool(b.List? && exists i :: 0 <= i < |b.items| && PyEqual(a, b.items[i])))
  {
    ComparedValues(rt, ps, row, a, b, "in");
    if b.List? && exists v :: v in b.items && PyEqual(a, v) {
      var v :| v in b.items && PyEqual(a, v);
      assert exists i :: 0 <= i < |b.items| && b.items[i] == v;
    }
  }

  lemma FirstDifference(a: seq<Value>, b: seq<Value>, k: nat, m: nat)
    requires k <= |a| && k <= |b| && m <= |a| && m <= |b|
    requires forall i | 0 <= i < k :: PyEqual(a[i], b[i])
    requires forall i | 0 <= i < m :: PyEqual(b[i], a[i])
    requires k == |a| || k == |b| || !PyEqual(a[k], b[k])
    requires m == |a| || m == |b| || !PyEqual(b[m], a[m])
    ensures k == m
  {}

  lemma CompareDecides(
    rt: Runtime, ps: Fields, row: Row, a: Value, b: Value, operator: string, less: Option<bool>, greater: Option<bool>)
    requires Compared(rt, ps, row, a, b, operator) && !a.Null? && !b.Null? && operator in {"gt", "gte", "lt", "lte"}
    requires PyLess(a, b) == less && PyLess(b, a) == greater
    ensures EvaluateOperation(rt, "compare", ps, row) == Ok(Bool(
      less.Some? && greater.Some? && match operator
        case "gt" => greater.value
        case "gte" => greater.value || PyEqual(a, b)
        case "lt" => less.value
        case _ => less.value || PyEqual(a, b)))
  {}

  /** Lists are ordered by their first unequal members if those are, and by length if there are none. */
  lemma CompareLists(rt: Runtime, ps: Fields, row: Row, a: Value, b: Value, operator: string) returns (k: nat)
    requires Compared(rt, ps, row, a, b, operator) && a.List? && b.List? && operator in {"gt", "gte", "lt", "lte"}
    ensures k <= |a.items| && k <= |b.items| && forall i | 0 <= i < k :: PyEqual(a.items[i], b.items[i])
    ensures k == |a.items| || k == |b.items| ==>
      EvaluateOperation(rt, "compare", ps, row) == match operator
        case "gt" => Ok(Bool(|a.items| > |b.items|))
        case "gte" => Ok(Bool(|a.items| >= |b.items|))
        case "lt" => Ok(Bool(|a.items| < |b.items|))
        case _ => Ok(Bool(|a.items| <= |b.items|))
    ensures k < |a.items| && k < |b.items| ==>
      var less, greater := PyLess(a.items[k], b.items[k]), PyLess(b.items[k], a.items[k]);
      && !PyEqual(a.items[k], b.items[k])
      && EvaluateOperation(rt, "compare", ps, row)
         == Ok(Bool(less.Some? && greater.Some? && if operator in {"gt", "gte"} then greater.value else less.value))
  {
    k := ListOrderMeans(a.items, b.items);
    var m := ListOrderMeans(b.items, a.items);
    FirstDifference(a.items, b.items, k, m);
    ListEqualMeans(a, b);
    CompareDecides(rt, ps, row, a, b, operator, ListLess(a.items, b.items), ListLess(b.items, a.items));
  }

  // ----- columns and literals -----

  lemma ColumnOrLiteral(rt: Runtime, v: Value, row: Row)
    ensures Evaluate(rt, Dict(map["column" := v]), row)
         == Ok(var c := Named(Text(rt, v)); if c in row then row[c] else Null)
    ensures Evaluate(rt, Dict(map["literal" := v]), row) == Ok(v)
  {
    assert map["column" := v].Keys == {"column"} && map["literal" := v].Keys == {"literal"};
    assert "column" !in {"literal"};
  }

  // ----- truth and branches -----

  /** Everything is true but null, false, zero, and an empty text, list or object. */
  lemma TruthyMeans(v: Value)
    ensures Truthy(v) <==>
      && v != Null && v != Bool(false) && v != Int(0) && v != Float(0.0)
      && v != Str("") && v != List([]) && v != Dict(map[])
  {}

  /** The operands have these values. */
  ghost predicate Operands(rt: Runtime, ps: Fields, row: Row, values: seq<Value>) {
    && "operands" in ps && ps["operands"].List? && |ps["operands"].items| == |values| && "operator" in ps
    && forall i | 0 <= i < |values| :: Evaluate(rt, ps["operands"].items[i], row) == Ok(values[i])
  }

  lemma {:induction false} AllEvaluated(rt: Runtime, items: seq<Value>, row: Row, values: seq<Value>)
    requires |items| == |values| && forall i | 0 <= i < |values| :: Evaluate(rt, items[i], row) == Ok(values[i])
    ensures EvaluateAll(rt, items, row) == Ok(values)
    decreases |items|
  {
    if items != [] {
      AllEvaluated(rt, items[1..], row, values[1..]);
      assert values == [values[0]] + values[1..];
    }
  }

  lemma ConnectMeans(values: seq<Value>, operator: Value)
    ensures operator == Str("not") && values != [] ==> Connect(values, operator) == Ok(Bool(!Truthy(values[0])))
    ensures operator == Str("and") ==>
      Connect(values, operator) == Ok(Bool(forall i | 0 <= i < |values| :: Truthy(values[i])))
    ensures operator != Str("and") && operator != Str("not") ==>
      Connect(values, operator) == Ok(Bool(exists i :: 0 <= i < |values| && Truthy(values[i])))
  {
    if exists v :: v in values && Truthy(v) {
      var v :| v in values && Truthy(v);
      assert exists i :: 0 <= i < |values| && values[i] == v;
    }
  }

  lemma LogicalMeans(rt: Runtime, ps: Fields, row: Row, values: seq<Value>)
    requires Operands(rt, ps, row, values)
    ensures var r := EvaluateOperation(rt, "logical", ps, row);
      if ps["operator"] == Str("not") then values != [] ==> r == Ok(Bool(!Truthy(values[0])))
      else if ps["operator"] == Str("and") then r == Ok(Bool(forall i | 0 <= i < |values| :: Truthy(values[i])))
      else r == Ok(Bool(exists i :: 0 <= i < |values| && Truthy(values[i])))
  {
    AllEvaluated(rt, ps["operands"].items, row, values);
    ConnectMeans(values, ps["operator"]);
  }

  /** Only the branch the condition names is evaluated. */
  lemma ConditionalMeans(rt: Runtime, ps: Fields, row: Row, condition: Value)
    requires "condition" in ps && "true_value" in ps && "false_value" in ps
    requires Evaluate(rt, ps["condition"], row) == Ok(condition)
    ensures EvaluateOperation(rt, "conditional", ps, row)
         == Evaluate(rt, if Truthy(condition) then ps["true_value"] else ps["false_value"], row)
  {}

  lemma MapValuesMeans(rt: Runtime, ps: Fields, row: Row, source: Value)
    requires "source" in ps && "mapping" in ps && ps["mapping"].Dict? && Evaluate(rt, ps["source"], row) == Ok(source)
    ensures EvaluateOperation(rt, "map_values", ps, row) ==
      if Text(rt, source) in ps["mapping"].entries then Ok(ps["mapping"].entries[Text(rt, source)])
      else if "default" in ps then Evaluate(rt, ps["default"], row) else Ok(Null)
  {}

  // ----- arithmetic -----

  function Total(xs: seq<real>): real { if xs == [] then 0.0 else xs[0] + Total(xs[1..]) }

  function Product(xs: seq<real>): real { if xs == [] then 1.0 else xs[0] * Product(xs[1..]) }

  /** The value reads as this number; a bool does not, though Python counts it among the integers. */
  predicate ReadsAs(rt: Runtime, v: Value, x: real) {
    match v
    case Int(n) => x == n as real
    case Float(q) => x == q
    case Str(s) => rt.parseFloat(s) == Some(x)
    case _ => false
  }

  /** `on_divide_by_zero`, "null" by default. */
  function ZeroPolicy(rt: Runtime, ps: Fields): string {
    if "on_divide_by_zero" in ps then Text(rt, ps["on_divide_by_zero"]) else "null"
  }

  lemma {:induction false} FoldTotals(result: real, rest: seq<real>, policy: string)
    ensures Fold(result, rest, "add", policy) == Ok(Float(result + Total(rest)))
    ensures Fold(result, rest, "subtract", policy) == Ok(Float(result - Total(rest)))
    decreases |rest|
  {
    if rest != [] {
      FoldTotals(result + rest[0], rest[1..], policy);
      FoldTotals(result - rest[0], rest[1..], policy);
    }
  }

  lemma {:induction false} FoldProducts(result: real, rest: seq<real>, policy: string)
    ensures Fold(result, rest, "multiply", policy) == Ok(Float(Product([result] + rest)))
    decreases |rest|
  {
    if rest == [] {
      assert [result][1..] == [] && Product([result]) == result * 1.0;
    } else {
      var next := Step(result, rest[0], "multiply", policy).result;
      FoldProducts(next, rest[1..], policy);
      ProductJoins(result, rest[0], next, rest[1..]);
      assert [result] + ([rest[0]] + rest[1..]) == [result] + rest;
    }
  }

  lemma ProductJoins(a: real, b: real, p: real, rest: seq<real>)
    requires p == a * b
    ensures Product([p] + rest) == Product([a] + ([b] + rest))
  {
    assert ([p] + rest)[1..] == rest && ([b] + rest)[1..] == rest && ([a] + ([b] + rest))[1..] == [b] + rest;
    Regroup(a, b, Product(rest), Product([b] + rest));
  }

  lemma Regroup(a: real, b: real, c: real, p: real)
    requires p == b * c
    ensures a * b * c == a * p
  {
    assert a * b * c == a * (b * c);
  }

  lemma {:induction false} NonZeroProduct(xs: seq<real>)
    requires forall i | 0 <= i < |xs| :: xs[i] != 0.0
    ensures Product(xs) != 0.0
  {
    if xs != [] { NonZeroProduct(xs[1..]); }
  }

  lemma DivideTwice(a: real, b: real, c: real, p: real)
    requires b != 0.0 && c != 0.0 && p == b * c && p != 0.0
    ensures a / b / c == a / p
  {
    var q := a / b / c;
    assert a == (a / b) * b;
    assert a / b == q * c;
    Regroup(q, c, b, p);
    assert q * p == a;
    Quotient(a, p, q);
  }

  lemma Quotient(a: real, p: real, q: real)
    requires p != 0.0 && q * p == a
    ensures q == a / p
  {}

  lemma {:induction false} FoldQuotients(result: real, rest: seq<real>, operator: string, policy: string)
    requires operator !in {"add", "subtract", "multiply"} && forall i | 0 <= i < |rest| :: rest[i] != 0.0
    ensures Product(rest) != 0.0 && Fold(result, rest, operator, policy) == Ok(Float(result / Product(rest)))
    decreases |rest|
  {
    NonZeroProduct(rest);
    if rest != [] {
      FoldQuotients(result / rest[0], rest[1..], operator, policy);
      DivideTwice(result, rest[0], Product(rest[1..]), Product(rest));
    }
  }

  lemma {:induction false} FoldStops(result: real, rest: seq<real>, operator: string, policy: string, i: nat)
    requires operator !in {"add", "subtract", "multiply"} && i < |rest| && rest[i] == 0.0
    ensures Fold(result, rest, operator, policy)
         == if policy == "error" then Err(DivisionByZero) else Ok(if policy == "zero" then Float(0.0) else Null)
    decreases |rest|
  {
    if rest[0] != 0.0 { FoldStops(result / rest[0], rest[1..], operator, policy, i - 1); }
  }

  lemma CalculateReads(rt: Runtime, values: seq<Value>, ps: Fields, xs: seq<real>)
    requires "operator" in ps && |xs| == |values| > 0 && forall i | 0 <= i < |xs| :: ReadsAs(rt, values[i], xs[i])
    ensures Calculate(rt, values, ps) == Fold(xs[0], xs[1..], Text(rt, ps["operator"]), ZeroPolicy(rt, ps))
  {
    var numeric := NumericAll(rt, values);
    assert forall i | 0 <= i < |xs| :: numeric[i] == Some(xs[i]);
    assert xs == seq(|numeric|, i requires 0 <= i < |numeric| => assert numeric[i] in numeric; numeric[i].value);
  }

  /** What numbers and an operator make: sum, difference from the first, product, or quotient. */
  function Computed(xs: seq<real>, operator: string, policy: string): Outcome<Value>
    requires xs != []
  {
    if operator == "add" then Ok(Float(Total(xs)))
    else if operator == "subtract" then Ok(Float(xs[0] - Total(xs[1..])))
    else if operator == "multiply" then Ok(Float(Product(xs)))
    else if forall i | 1 <= i < |xs| :: xs[i] != 0.0 then
      NonZeroProduct(xs[1..]);
      Ok(Float(xs[0] / Product(xs[1..])))
    else if policy == "error" then Err(DivisionByZero)
    else Ok(if policy == "zero" then Float(0.0) else Null)
  }

  lemma FoldComputes(xs: seq<real>, operator: string, policy: string)
    requires xs != []
    ensures Fold(xs[0], xs[1..], operator, policy) == Computed(xs, operator, policy)
  {
    if operator == "add" || operator == "subtract" { FoldTotals(xs[0], xs[1..], policy); }
    else if operator == "multiply" {
      FoldProducts(xs[0], xs[1..], policy);
      assert [xs[0]] + xs[1..] == xs;
    }
    else { DivisionMeans(xs, operator, policy); }
  }

  /** Sum, difference from the first, product, and quotient by the product of the others. */
  lemma ArithmeticMeans(rt: Runtime, ps: Fields, row: Row, values: seq<Value>, xs: seq<real>)
    requires Operands(rt, ps, row, values) && |xs| == |values| > 0
    requires forall i | 0 <= i < |xs| :: ReadsAs(rt, values[i], xs[i])
    ensures EvaluateOperation(rt, "arithmetic", ps, row) == Computed(xs, Text(rt, ps["operator"]), ZeroPolicy(rt, ps))
  {
    AllEvaluated(rt, ps["operands"].items, row, values);
    CalculateReads(rt, values, ps, xs);
    FoldComputes(xs, Text(rt, ps["operator"]), ZeroPolicy(rt, ps));
  }

  lemma DivisionMeans(xs: seq<real>, operator: string, policy: string)
    requires xs != [] && operator !in {"add", "subtract", "multiply"}
    ensures Fold(xs[0], xs[1..], operator, policy) == Computed(xs, operator, policy)
  {
    if forall i | 1 <= i < |xs| :: xs[i] != 0.0 {
      FoldQuotients(xs[0], xs[1..], operator, policy);
    } else {
      var i :| 1 <= i < |xs| && xs[i] == 0.0;
      FoldStops(xs[0], xs[1..], operator, policy, i - 1);
    }
  }

  /** One operand that reads as no number makes the whole result null. */
  lemma ArithmeticNull(rt: Runtime, ps: Fields, row: Row, values: seq<Value>, k: nat)
    requires Operands(rt, ps, row, values) && k < |values| && forall x: real :: !ReadsAs(rt, values[k], x)
    ensures EvaluateOperation(rt, "arithmetic", ps, row) == Ok(Null)
  {
    AllEvaluated(rt, ps["operands"].items, row, values);
    var n := NumericOperand(rt, values[k]);
    assert n.Some? ==> ReadsAs(rt, values[k], n.value);
    assert NumericAll(rt, values)[k] == n;
  }

  // ----- failures -----

  lemma {:induction false} FirstFailure(rt: Runtime, items: seq<Value>, row: Row, k: nat)
    requires k < |items| && Evaluate(rt, items[k], row).Err?
    requires forall i | 0 <= i < k :: Evaluate(rt, items[i], row).Ok?
    ensures EvaluateAll(rt, items, row) == Err(Evaluate(rt, items[k], row).error)
    decreases |items|
  {
    if k > 0 { FirstFailure(rt, items[1..], row, k - 1); }
  }

  /** The first operand that fails makes a logical or arithmetic operation fail in the same way. */
  lemma OperandFails(rt: Runtime, name: string, ps: Fields, row: Row, k: nat)
    requires name in {"logical", "arithmetic"} && "operands" in ps && ps["operands"].List?
    requires k < |ps["operands"].items| && Evaluate(rt, ps["operands"].items[k], row).Err?
    requires forall i | 0 <= i < k :: Evaluate(rt, ps["operands"].items[i], row).Ok?
    ensures EvaluateOperation(rt, name, ps, row) == Err(Evaluate(rt, ps["operands"].items[k], row).error)
  {
    FirstFailure(rt, ps["operands"].items, row, k);
  }
}
