/**
 The normaliser of derivation expressions is idempotent: what one run produced, another run
 leaves as it is, whatever columns are declared by then.
 */
module DerivationFixpoint {
  import opened Values
  import opened DerivationSpec

  /** No run changes it. */
  ghost predicate Fixed(v: Value) { forall declared: set<string> :: Normalize(declared, v) == Some(v) }

  ghost predicate Settles(declared: set<string>, v: Value) {
    Normalize(declared, v).Some? ==> Fixed(Normalize(declared, v).value)
  }

  /** The induction hypothesis: shallower expressions settle in one run. */
  ghost predicate SettlesBelow(declared: set<string>, n: nat) {
    forall v {:trigger Settles(declared, v)} :: Nesting(v) < n ==> Settles(declared, v)
  }

  // ----- the form one run leaves behind -----

  predicate SourceShape(s: Fields) { "column" !in s && ("source" in s ==> s["source"].Dict?) }

  predicate DictAt(s: Fields, key: string) { key in s ==> s[key].Dict? }

  predicate Comparable(v: Value) { v.Dict? && !Flat(v.entries) }

  predicate ListShape(s: Fields, key: string, flat: bool) {
    key in s && s[key].List? ==>
      forall i | 0 <= i < |s[key].items| :: s[key].items[i].Dict? && (flat ==> Comparable(s[key].items[i]))
  }

  ghost predicate MetricShape(v: Value) {
    v.Dict? ==> SourceShape(v.entries) && ("source" in v.entries ==> Fixed(v.entries["source"]))
  }

  ghost predicate MetricsShape(s: Fields) {
    "metrics" in s && s["metrics"].List? ==>
      forall i | 0 <= i < |s["metrics"].items| :: MetricShape(s["metrics"].items[i])
  }

  predicate OperatorShape(s: Fields) { "operator" in s ==> Alias(s["operator"]) == Some(s["operator"]) }

  ghost predicate Shape(kind: OperationKind, s: Fields) {
    match kind
    case DatePart => "date_part" !in s && SourceShape(s)
    case Bucketize => SourceShape(s)
    case Compare => ComparedShape(s)
    case Logical => "conditions" !in s && ListShape(s, "operands", true)
    case Conditional => ConditionalShape(s)
    case Arithmetic => ListShape(s, "operands", false)
    case MapValues => SourceShape(s) && DictAt(s, "default")
    case Aggregation => ListShape(s, "group_by", false) && MetricsShape(s)
    case Unknown => true
  }

  predicate ComparedShape(s: Fields) { "column" !in s && "value" !in s && DictAt(s, "left") && DictAt(s, "right") }

  predicate ConditionalShape(s: Fields) {
    && "if" !in s && "then" !in s && "else" !in s
    && ("condition" in s ==> s["condition"].Null? || Comparable(s["condition"]))
    && DictAt(s, "true_value") && DictAt(s, "false_value")
  }

  // ----- one run gives that form -----

  lemma OperandSettles(declared: set<string>, v: Value, literal: bool, n: nat)
    requires SettlesBelow(declared, n) && Nesting(v) < n
    ensures Operand(declared, v, literal).Some? ==> Fixed(Operand(declared, v, literal).value)
  {
    assert Settles(declared, v);
  }

  /** A wrapped or kept operand is never a flat comparison, unless it was one. */
  lemma OperandComparable(declared: set<string>, v: Value, literal: bool)
    requires !v.Dict?
    ensures Operand(declared, v, literal).Some? && Comparable(Operand(declared, v, literal).value)
  {
    assert "value" !in Column(v).entries && "value" !in Literal(v).entries;
  }

  lemma MetricsSettle(declared: set<string>, xs: seq<Value>, n: nat)
    requires SettlesBelow(declared, n) && ItemsNesting(xs) < n && Metrics(declared, xs).Some?
    ensures forall i | 0 <= i < |xs| :: MetricShape(Metrics(declared, xs).value[i])
  {
    forall i | 0 <= i < |xs| ensures MetricShape(Metrics(declared, xs).value[i]) {
      MetricSettles(declared, xs[i], n);
    }
  }

  lemma SourcedSettles(declared: set<string>, m: Fields, n: nat)
    requires SettlesBelow(declared, n) && FieldsNesting(m) < n && Sourced(declared, m).Some?
    ensures SourceShape(Sourced(declared, m).value)
    ensures "source" in Sourced(declared, m).value ==> Fixed(Sourced(declared, m).value["source"])
  {
    if "column" in m {
      ColumnFixed(m["column"]);
    } else if "source" in m {
      OperandSettles(declared, m["source"], false, n);
    }
  }

  lemma ColumnFixed(v: Value)
    ensures Fixed(Column(v)) && Fixed(Literal(v))
  {
    assert "operation" !in Column(v).entries && "operation" !in Literal(v).entries;
  }

  lemma MetricSettles(declared: set<string>, v: Value, n: nat)
    requires SettlesBelow(declared, n) && Nesting(v) < n && Metric(declared, v).Some?
    ensures MetricShape(Metric(declared, v).value)
  {
    if v.Dict? {
      assert FieldsNesting(v.entries) <= Nesting(v);
      SourcedSettles(declared, v.entries, n);
    }
  }

  /** What rewriting one operand in place does to the parameters. */
  lemma OperandAtShape(declared: set<string>, p: Fields, key: string, literal: bool)
    requires OperandAt(declared, p, key, literal).Some?
    ensures SameBut(p, OperandAt(declared, p, key, literal).value, key)
    ensures DictAt(OperandAt(declared, p, key, literal).value, key)
  {}

  lemma ConditionShape(declared: set<string>, p: Fields)
    requires Condition(declared, p).Some?
    ensures var q := Condition(declared, p).value;
      SameBut(p, q, "condition") && ("condition" in q ==> q["condition"].Null? || Comparable(q["condition"]))
  {
    if "condition" in p && !p["condition"].Dict? { OperandComparable(declared, p["condition"], false); }
  }

  lemma MoveShape(p: Fields, name: string, target: string)
    requires name !in FLAT_KEYS + {"operation"} && target !in FLAT_KEYS + {"operation"} && name != target
    requires Move(p, name, target).Some?
    ensures var q := Move(p, name, target).value;
      && name !in q && q.Keys <= p.Keys + {target}
      && forall k | k in p && k != name && k != target :: k in q && q[k] == p[k]
  {}

  lemma MovesKept(p: Fields, p1: Fields, p2: Fields, p3: Fields)
    requires OperatorShape(p) && "if" !in p1 && "then" !in p2 && "else" !in p3
    requires forall k | k in p && k != "if" && k != "condition" :: k in p1 && p1[k] == p[k]
    requires forall k | k in p1 && k != "then" && k != "true_value" :: k in p2 && p2[k] == p1[k]
    requires forall k | k in p2 && k != "else" && k != "false_value" :: k in p3 && p3[k] == p2[k]
    requires p1.Keys <= p.Keys + {"condition"} && p2.Keys <= p1.Keys + {"true_value"}
    requires p3.Keys <= p2.Keys + {"false_value"}
    ensures "if" !in p3 && "then" !in p3 && "else" !in p3 && OperatorShape(p3)
  {}

  lemma ConditionalNamesSettle(p: Fields)
    requires ConditionalNames(p).Some? && OperatorShape(p)
    ensures var q := ConditionalNames(p).value; "if" !in q && "then" !in q && "else" !in q && OperatorShape(q)
  {
    var p1 := Move(p, "if", "condition").value;
    var p2 := Move(p1, "then", "true_value").value;
    MovesSettle(p, p1, p2, ConditionalNames(p).value);
  }

  lemma MovesSettle(p: Fields, p1: Fields, p2: Fields, p3: Fields)
    requires OperatorShape(p) && Move(p, "if", "condition") == Some(p1)
    requires Move(p1, "then", "true_value") == Some(p2) && Move(p2, "else", "false_value") == Some(p3)
    ensures "if" !in p3 && "then" !in p3 && "else" !in p3 && OperatorShape(p3)
  {
    MoveIf(p);
    MoveThen(p1);
    MoveElse(p2);
    MovesKept(p, p1, p2, p3);
  }

  lemma MoveIf(p: Fields)
    requires Move(p, "if", "condition").Some?
    ensures var q := Move(p, "if", "condition").value;
      && "if" !in q && q.Keys <= p.Keys + {"condition"}
      && forall k | k in p && k != "if" && k != "condition" :: k in q && q[k] == p[k]
  {
    MoveShape(p, "if", "condition");
  }

  lemma MoveThen(p: Fields)
    requires Move(p, "then", "true_value").Some?
    ensures var q := Move(p, "then", "true_value").value;
      && "then" !in q && q.Keys <= p.Keys + {"true_value"}
      && forall k | k in p && k != "then" && k != "true_value" :: k in q && q[k] == p[k]
  {
    MoveShape(p, "then", "true_value");
  }

  lemma MoveElse(p: Fields)
    requires Move(p, "else", "false_value").Some?
    ensures var q := Move(p, "else", "false_value").value;
      && "else" !in q && q.Keys <= p.Keys + {"false_value"}
      && forall k | k in p && k != "else" && k != "false_value" :: k in q && q[k] == p[k]
  {
    MoveShape(p, "else", "false_value");
  }

  lemma ConditionalKept(p: Fields, q: Fields, r: Fields, s: Fields)
    requires OperatorShape(p) && "if" !in p && "then" !in p && "else" !in p
    requires SameBut(p, q, "condition") && SameBut(q, r, "true_value") && SameBut(r, s, "false_value")
    requires "condition" in q ==> q["condition"].Null? || Comparable(q["condition"])
    requires DictAt(r, "true_value") && DictAt(s, "false_value")
    ensures ConditionalShape(s) && OperatorShape(s)
  {}

  lemma ConditionalValuesSettle(declared: set<string>, p: Fields)
    requires ConditionalValues(declared, p).Some? && OperatorShape(p) && "if" !in p && "then" !in p && "else" !in p
    ensures ConditionalShape(ConditionalValues(declared, p).value)
    ensures OperatorShape(ConditionalValues(declared, p).value)
  {
    ConditionShape(declared, p);
    var q := Condition(declared, p).value;
    OperandAtShape(declared, q, "true_value", false);
    var r := OperandAt(declared, q, "true_value", false).value;
    OperandAtShape(declared, r, "false_value", false);
    ConditionalKept(p, q, r, OperandAt(declared, r, "false_value", false).value);
  }

  lemma ItemShape(declared: set<string>, xs: seq<Value>, i: nat, flat: bool)
    requires i < |xs| && Nesting(xs[i]) <= ItemsNesting(xs) && Item(declared, xs, i, flat).Some?
    ensures flat ==> Comparable(Item(declared, xs, i, flat).value)
  {
    if flat && !xs[i].Dict? { OperandComparable(declared, xs[i], false); }
  }

  lemma ItemsShape(declared: set<string>, xs: seq<Value>, flat: bool)
    requires Items(declared, xs, flat).Some?
    ensures forall i | 0 <= i < |xs| ::
      Items(declared, xs, flat).value[i].Dict? && (flat ==> Comparable(Items(declared, xs, flat).value[i]))
  {
    forall i | 0 <= i < |xs|
      ensures Items(declared, xs, flat).value[i].Dict? && (flat ==> Comparable(Items(declared, xs, flat).value[i]))
    {
      ItemShape(declared, xs, i, flat);
    }
  }

  lemma ListSettles(declared: set<string>, p: Fields, key: string, flat: bool)
    requires ItemsAt(declared, p, key, flat).Some?
    ensures ListShape(ItemsAt(declared, p, key, flat).value, key, flat)
    ensures SameBut(p, ItemsAt(declared, p, key, flat).value, key)
  {
    if key in p && p[key].List? { ItemsShape(declared, p[key].items, flat); }
  }

  lemma ComparedSettles(declared: set<string>, p: Fields)
    requires Compared(declared, p).Some? && OperatorShape(p)
    ensures ComparedShape(Compared(declared, p).value) && OperatorShape(Compared(declared, p).value)
  {
    if "column" !in p && "value" !in p {
      var q := OperandAt(declared, p, "left", false).value;
      OperandAtShape(declared, p, "left", false);
      OperandAtShape(declared, q, "right", true);
      ComparedKept(p, q, OperandAt(declared, q, "right", true).value);
    } else {
      UnaliasedShape(p, Operand(declared, p["value"], true).value);
    }
  }

  lemma UnaliasedShape(p: Fields, right: Value)
    requires OperatorShape(p) && "column" in p && right.Dict?
    ensures ComparedShape(Unaliased(p, right)) && OperatorShape(Unaliased(p, right))
  {}

  lemma ComparedKept(p: Fields, q: Fields, r: Fields)
    requires OperatorShape(p) && "column" !in p && "value" !in p
    requires SameBut(p, q, "left") && SameBut(q, r, "right") && DictAt(q, "left") && DictAt(r, "right")
    ensures ComparedShape(r) && OperatorShape(r)
  {
  }

  lemma AggregateSettles(declared: set<string>, p: Fields, n: nat)
    requires SettlesBelow(declared, n) && FieldsNesting(p) < n && OperatorShape(p) && Aggregate(declared, p).Some?
    ensures Shape(Aggregation, Aggregate(declared, p).value) && OperatorShape(Aggregate(declared, p).value)
  {
    ListSettles(declared, p, "group_by", false);
    var q := ItemsAt(declared, p, "group_by", false).value;
    if "metrics" in q && q["metrics"].List? {
      MetricsWithin(q);
      MetricsSettle(declared, q["metrics"].items, n);
      MetricsReplaced(q, Metrics(declared, q["metrics"].items).value);
    }
  }

  lemma MetricsWithin(q: Fields)
    requires "metrics" in q && q["metrics"].List?
    ensures ItemsNesting(q["metrics"].items) <= FieldsNesting(q)
  {
    assert Nesting(q["metrics"]) <= FieldsNesting(q);
  }

  lemma MetricsReplaced(q: Fields, xs: seq<Value>)
    requires ListShape(q, "group_by", false) && OperatorShape(q) && forall i | 0 <= i < |xs| :: MetricShape(xs[i])
    ensures Shape(Aggregation, q["metrics" := List(xs)]) && OperatorShape(q["metrics" := List(xs)])
  {}

  lemma SourceSettles(declared: set<string>, p: Fields)
    requires Sourced(declared, p).Some? && OperatorShape(p)
    ensures var q := Sourced(declared, p).value;
      SourceShape(q) && OperatorShape(q) && q.Keys <= p.Keys + {"source"}
  {}

  lemma DatePartSettles(declared: set<string>, p: Fields)
    requires Parameters(declared, DatePart, p).Some? && OperatorShape(p)
    ensures Shape(DatePart, Parameters(declared, DatePart, p).value)
    ensures OperatorShape(Parameters(declared, DatePart, p).value)
  {
    MoveShape(p, "date_part", "part");
    SourceSettles(declared, Move(p, "date_part", "part").value);
  }

  lemma LogicalSettles(declared: set<string>, p: Fields)
    requires Parameters(declared, Logical, p).Some? && OperatorShape(p)
    ensures Shape(Logical, Parameters(declared, Logical, p).value)
    ensures OperatorShape(Parameters(declared, Logical, p).value)
  {
    MoveShape(p, "conditions", "operands");
    ListSettles(declared, Move(p, "conditions", "operands").value, "operands", true);
  }

  lemma MapValuesSettles(declared: set<string>, p: Fields)
    requires Parameters(declared, MapValues, p).Some? && OperatorShape(p)
    ensures Shape(MapValues, Parameters(declared, MapValues, p).value)
    ensures OperatorShape(Parameters(declared, MapValues, p).value)
  {
    SourceSettles(declared, p);
    OperandAtShape(declared, Sourced(declared, p).value, "default", true);
  }

  lemma ConditionalSettles(declared: set<string>, p: Fields)
    requires Parameters(declared, Conditional, p).Some? && OperatorShape(p)
    ensures Shape(Conditional, Parameters(declared, Conditional, p).value)
    ensures OperatorShape(Parameters(declared, Conditional, p).value)
  {
    ConditionalNamesSettle(p);
    ConditionalValuesSettle(declared, ConditionalNames(p).value);
  }

  lemma ParametersSettle(declared: set<string>, kind: OperationKind, p: Fields, n: nat)
    requires SettlesBelow(declared, n) && FieldsNesting(p) < n && OperatorShape(p)
    requires Parameters(declared, kind, p).Some?
    ensures Shape(kind, Parameters(declared, kind, p).value)
    ensures OperatorShape(Parameters(declared, kind, p).value)
  {
    match kind {
      case DatePart => DatePartSettles(declared, p);
      case Bucketize => SourceSettles(declared, p);
      case Compare => ComparedSettles(declared, p);
      case Logical => LogicalSettles(declared, p);
      case Conditional => ConditionalSettles(declared, p);
      case Arithmetic => ListSettles(declared, p, "operands", false);
      case MapValues => MapValuesSettles(declared, p);
      case Aggregation => AggregateSettles(declared, p, n);
      case Unknown =>
    }
  }

  // ----- the last loop keeps that form -----

  predicate Kept(a: Value, b: Value) {
    if a.Dict? then b.Dict? && SameBut(a.entries, b.entries, "parameters") else a == b
  }

  predicate KeptValue(a: Value, b: Value) {
    if a.List? then b.List? && |b.items| == |a.items| && forall i | 0 <= i < |a.items| :: Kept(a.items[i], b.items[i])
    else Kept(a, b)
  }

  ghost predicate FixedValue(v: Value) {
    if v.List? then forall i | 0 <= i < |v.items| :: Fixed(v.items[i]) else Fixed(v)
  }

  lemma NestedSettles(declared: set<string>, q: Fields, n: nat)
    requires SettlesBelow(declared, n) && FieldsNesting(q) < n && Nested(declared, q).Some?
    ensures var s := Nested(declared, q).value;
      s.Keys == q.Keys && forall k | k in q :: KeptValue(q[k], s[k]) && FixedValue(s[k])
  {
    forall k | k in q
      ensures KeptValue(q[k], Nested(declared, q).value[k]) && FixedValue(Nested(declared, q).value[k])
    {
      NestedValueSettles(declared, q[k], n);
    }
  }

  lemma NestedValueSettles(declared: set<string>, v: Value, n: nat)
    requires SettlesBelow(declared, n) && Nesting(v) < n && NestedValue(declared, v).Some?
    ensures KeptValue(v, NestedValue(declared, v).value) && FixedValue(NestedValue(declared, v).value)
  {
    if v.List? {
      forall i | 0 <= i < |v.items| ensures Settles(declared, v.items[i]) {
        assert Nesting(v.items[i]) <= ItemsNesting(v.items);
      }
    } else {
      assert Settles(declared, v);
    }
  }

  lemma KeptShape(kind: OperationKind, q: Fields, s: Fields)
    requires Shape(kind, q) && s.Keys == q.Keys && forall k | k in q :: KeptValue(q[k], s[k])
    ensures Shape(kind, s) && (OperatorShape(q) ==> OperatorShape(s))
  {}

  // ----- a further run changes nothing in that form -----

  lemma OperandFixed(declared: set<string>, s: Fields, key: string, literal: bool)
    requires DictAt(s, key) && (key in s ==> FixedValue(s[key]))
    ensures OperandAt(declared, s, key, literal) == Some(s)
  {
    if key in s {
      assert Normalize(declared, s[key]) == Some(s[key]);
      assert s[key := s[key]] == s;
    }
  }

  lemma ItemsFixed(declared: set<string>, xs: seq<Value>, flat: bool)
    requires forall i | 0 <= i < |xs| :: xs[i].Dict? && Fixed(xs[i]) && (flat ==> Comparable(xs[i]))
    ensures Items(declared, xs, flat) == Some(xs)
  {
    forall i | 0 <= i < |xs| ensures Item(declared, xs, i, flat) == Some(xs[i]) {
      assert Normalize(declared, xs[i]) == Some(xs[i]);
    }
    assert Items(declared, xs, flat).Some?;
    assert Items(declared, xs, flat).value == xs;
  }

  lemma ListFixed(declared: set<string>, s: Fields, key: string, flat: bool)
    requires ListShape(s, key, flat) && (key in s ==> FixedValue(s[key]))
    ensures ItemsAt(declared, s, key, flat) == Some(s)
  {
    if key in s && s[key].List? {
      ItemsFixed(declared, s[key].items, flat);
      assert s[key := s[key]] == s;
    }
  }

  lemma MetricsFixed(declared: set<string>, xs: seq<Value>)
    requires forall i | 0 <= i < |xs| :: MetricShape(xs[i])
    ensures Metrics(declared, xs) == Some(xs)
  {
    forall i | 0 <= i < |xs| ensures Metric(declared, xs[i]) == Some(xs[i]) {
      if xs[i].Dict? { OperandFixed(declared, xs[i].entries, "source", false); }
    }
    assert Metrics(declared, xs).value == xs;
  }

  lemma MetricsAtFixed(declared: set<string>, s: Fields)
    requires Shape(Aggregation, s) && forall k | k in s :: FixedValue(s[k])
    ensures MetricsAt(declared, s) == Some(s)
  {
    if "metrics" in s && s["metrics"].List? {
      MetricsFixed(declared, s["metrics"].items);
      assert s["metrics" := s["metrics"]] == s;
    }
  }

  lemma ParametersFixed(declared: set<string>, kind: OperationKind, s: Fields)
    requires Shape(kind, s) && forall k | k in s :: FixedValue(s[k])
    ensures Parameters(declared, kind, s) == Some(s)
  {
    match kind {
      case DatePart => OperandFixed(declared, s, "source", false);
      case Bucketize => OperandFixed(declared, s, "source", false);
      case Compare =>
        OperandFixed(declared, s, "left", false);
        OperandFixed(declared, s, "right", true);
      case Logical => ListFixed(declared, s, "operands", true);
      case Conditional =>
        ConditionFixed(declared, s);
        OperandFixed(declared, s, "true_value", false);
        OperandFixed(declared, s, "false_value", false);
      case Arithmetic => ListFixed(declared, s, "operands", false);
      case MapValues =>
        OperandFixed(declared, s, "source", false);
        OperandFixed(declared, s, "default", true);
      case Aggregation =>
        ListFixed(declared, s, "group_by", false);
        MetricsAtFixed(declared, s);
      case Unknown =>
    }
  }

  lemma ConditionFixed(declared: set<string>, s: Fields)
    requires ConditionalShape(s) && forall k | k in s :: FixedValue(s[k])
    ensures Condition(declared, s) == Some(s)
  {
    if "condition" in s && s["condition"].Dict? {
      assert Normalize(declared, s["condition"]) == Some(s["condition"]);
      assert s["condition" := s["condition"]] == s;
    }
  }

  lemma NestedValueFixed(declared: set<string>, v: Value)
    requires FixedValue(v)
    ensures NestedValue(declared, v) == Some(v)
  {
    if v.List? {
      assert forall i | 0 <= i < |v.items| :: Normalize(declared, v.items[i]) == Some(v.items[i]);
      assert NestedValue(declared, v).value.items == v.items;
    }
  }

  lemma NestedFixed(declared: set<string>, s: Fields)
    requires forall k | k in s :: FixedValue(s[k])
    ensures Nested(declared, s) == Some(s)
  {
    forall k | k in s ensures NestedValue(declared, s[k]) == Some(s[k]) {
      NestedValueFixed(declared, s[k]);
    }
    assert Nested(declared, s).value == s;
  }

  lemma OperationFixed(v: Value)
    requires IsOperation(v)
    requires var s := v.entries["parameters"].entries;
      && Shape(KindOf(v.entries["operation"].text), s) && OperatorShape(s) && forall k | k in s :: FixedValue(s[k])
    ensures Fixed(v)
  {
    var s := v.entries["parameters"].entries;
    forall declared: set<string> ensures Normalize(declared, v) == Some(v) {
      ParametersFixed(declared, KindOf(v.entries["operation"].text), s);
      NestedFixed(declared, s);
      assert "operator" in s ==> s["operator" := s["operator"]] == s;
      assert v.entries["parameters" := Dict(s)] == v.entries;
    }
  }

  lemma SymbolsAndWords(text: string)
    requires text in ALIASES
    ensures text != "" && text[0] < 'a' && ALIASES[text] != "" && 'a' <= ALIASES[text][0]
  {}

  /** An alias stands for a word, and no word is an alias. */
  lemma AliasSettles(v: Value)
    requires Alias(v).Some?
    ensures Alias(Alias(v).value) == Alias(v)
  {
    if v.Str? && v.text in ALIASES {
      SymbolsAndWords(v.text);
      if ALIASES[v.text] in ALIASES { SymbolsAndWords(ALIASES[v.text]); }
    }
  }

  lemma AliasedShape(p: Fields)
    ensures AliasOperator(p).Some? ==> OperatorShape(AliasOperator(p).value)
  {
    if "operator" in p && Alias(p["operator"]).Some? { AliasSettles(p["operator"]); }
  }

  lemma NestedKeepsShape(declared: set<string>, kind: OperationKind, q: Fields, n: nat)
    requires SettlesBelow(declared, n) && FieldsNesting(q) < n && Nested(declared, q).Some?
    requires Shape(kind, q) && OperatorShape(q)
    ensures var s := Nested(declared, q).value;
      Shape(kind, s) && OperatorShape(s) && forall k | k in s :: FixedValue(s[k])
  {
    NestedSettles(declared, q, n);
    KeptShape(kind, q, Nested(declared, q).value);
  }

  lemma RewrittenSettles(declared: set<string>, kind: OperationKind, p: Fields, n: nat)
    requires SettlesBelow(declared, n) && FieldsNesting(p) < n && Rewritten(declared, kind, p).Some?
    ensures var s := Rewritten(declared, kind, p).value;
      Shape(kind, s) && OperatorShape(s) && forall k | k in s :: FixedValue(s[k])
  {
    AliasedShape(p);
    var aliased := AliasOperator(p).value;
    ParametersSettle(declared, kind, aliased, n);
    NestedKeepsShape(declared, kind, Parameters(declared, kind, aliased).value, n);
  }

  lemma OperationSettles(declared: set<string>, v: Value)
    requires IsOperation(v) && Normalize(declared, v).Some? && SettlesBelow(declared, Nesting(v))
    ensures Fixed(Normalize(declared, v).value)
  {
    ParametersShallower(v);
    RewrittenSettles(declared, KindOf(v.entries["operation"].text), v.entries["parameters"].entries, Nesting(v));
    OperationFixed(Normalize(declared, v).value);
  }

  /**
   Normalising an arbitrary tree once is enough: if it succeeds, normalising the result again
   succeeds and returns it unchanged, for any set of declared columns.
   */
  lemma {:induction false} NormalizeSettles(declared: set<string>, v: Value)
    ensures Normalize(declared, v).Some? ==> Fixed(Normalize(declared, v).value)
    decreases Nesting(v)
  {
    if IsOperation(v) && Normalize(declared, v).Some? {
      forall u | Nesting(u) < Nesting(v) ensures Settles(declared, u) { NormalizeSettles(declared, u); }
      OperationSettles(declared, v);
    }
  }
}
