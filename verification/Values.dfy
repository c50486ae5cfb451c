/**
 Python values as the data-processing executor sees them after JSON decoding, with the
 parts of Python's semantics that the executor relies on: equality across int/float/bool,
 truthiness, ordering, hashing.  Conversions whose text or calendar rules are not modelled
 (`str`, `repr`, `float(text)`, dates) are the function fields of `Runtime`.
 */
module Values {

  datatype Option<+T> = None | Some(value: T)

  /** Why an execution step stopped.  A missing key of a parameter or a row is Python's KeyError. */
  datatype Failure =
    | MissingKey(key: string)
    | MissingColumn(column: ColumnKey)
    | DivisionByZero
    | LabelMismatch
    | Unhashable
    | BadExpression

  datatype Outcome<+T> = Ok(value: T) | Err(error: Failure) {
    predicate IsFailure() { Err? }

    function PropagateFailure<U>(): Outcome<U>
      requires Err?
    {
      Err(error)
    }

    function Extract(): T
      requires Ok?
    {
      value
    }
  }

  datatype Value =
    | Null
    | Bool(flag: bool)
    | Int(number: int)
    | Float(quantity: real)
    | Str(text: string)
    | List(items: seq<Value>)
    | Dict(entries: map<string, Value>)

  /** The entries of a JSON object. */
  type Fields = map<string, Value>

  /**
   A key of a data row: a text, or the canonical form of any other hashable value, which a
   dictionary keeps apart from every text even when `str` of it is that text.
   */
  datatype ColumnKey = Named(name: string) | Other(value: Value)

  type Row = map<ColumnKey, Value>

  function KeyFor(v: Value): ColumnKey { if v.Str? then Named(v.text) else Other(Canon(v)) }

  datatype Runtime = Runtime(
    str: Value -> string,
    repr: Value -> string,
    parseFloat: string -> Option<real>,
    convert: (Value, string) -> Value,
    datePart: (Value, string, string) -> Value,
    rangeLabel: (real, real) -> string,
    median: seq<real> -> real,
    normalizeText: string -> Value)

  /** Python's `str(value)`. */
  function Text(rt: Runtime, v: Value): string {
    if v.Str? then v.text else rt.str(v)
  }

  /** `mapping.get(key)`. */
  function Get<K(==)>(entries: map<K, Value>, key: K): Value {
    if key in entries then entries[key] else Null
  }

  /** `row[column]`. */
  function Cell(row: Row, column: ColumnKey): (r: Outcome<Value>)
    ensures r.Ok? <==> column in row
    ensures r.Ok? ==> r.value == row[column]
    ensures r.Err? ==> r.error == MissingColumn(column)
  {
    if column in row then Ok(row[column]) else Err(MissingColumn(column))
  }

  /** `mapping[key]`. */
  function Field(entries: map<string, Value>, key: string): (r: Outcome<Value>)
    ensures r.Ok? <==> key in entries
    ensures r.Ok? ==> r.value == entries[key]
    ensures r.Err? ==> r.error == MissingKey(key)
  {
    if key in entries then Ok(entries[key]) else Err(MissingKey(key))
  }

  predicate Truthy(v: Value) {
    match v
    case Null => false
    case Bool(b) => b
    case Int(i) => i != 0
    case Float(r) => r != 0.0
    case Str(s) => s != ""
    case List(xs) => xs != []
    case Dict(m) => m != map[]
  }

  /** `isinstance(value, (int, float))`; a bool is an int in Python. */
  predicate IsNumber(v: Value) { v.Bool? || v.Int? || v.Float? }

  function AsReal(v: Value): real
    requires IsNumber(v)
  {
    match v
    case Bool(b) => if b then 1.0 else 0.0
    case Int(i) => i as real
    case Float(r) => r
  }

  /** Two Python values are equal exactly when their canonical forms are identical. */
  function Canon(v: Value): Value {
    match v
    case Bool(_) => Float(AsReal(v))
    case Int(_) => Float(AsReal(v))
    case List(xs) => List(seq(|xs|, i requires 0 <= i < |xs| => Canon(xs[i])))
    case Dict(m) => Dict(map k | k in m :: Canon(m[k]))
    case _ => v
  }

  predicate PyEqual(a: Value, b: Value) { Canon(a) == Canon(b) }

  predicate Hashable(v: Value) { !v.List? && !v.Dict? }

  predicate TextLess(a: string, b: string) {
    if b == "" then false
    else if a == "" then true
    else if a[0] == b[0] then TextLess(a[1..], b[1..])
    else a[0] < b[0]
  }

  /** Text is totally ordered: not being less is transitive, and less excludes greater. */
  lemma {:induction false} TextOrder(a: string, b: string, c: string)
    ensures !TextLess(a, b) && !TextLess(b, c) ==> !TextLess(a, c)
    ensures TextLess(a, b) ==> !TextLess(b, a)
    decreases |a| + |b| + |c|
  {
    if a != "" && b != "" {
      TextOrder(a[1..], b[1..], if c == "" then c else c[1..]);
    }
  }

  /** `a < b`; `None` is Python's TypeError. */
  function PyLess(a: Value, b: Value): Option<bool>
    decreases a
  {
    if IsNumber(a) && IsNumber(b) then Some(AsReal(a) < AsReal(b))
    else if a.Str? && b.Str? then Some(TextLess(a.text, b.text))
    else if a.List? && b.List? then ListLess(a.items, b.items)
    else None
  }

  function ListLess(a: seq<Value>, b: seq<Value>): Option<bool>
    decreases a
  {
    if b == [] then Some(false)
    else if a == [] then Some(true)
    else if PyEqual(a[0], b[0]) then ListLess(a[1..], b[1..])
    else PyLess(a[0], b[0])
  }

  /** `dict.fromkeys`: the first occurrences, in order. */
  function Distinct<T(==, !new)>(xs: seq<T>): (r: seq<T>)
    ensures forall x :: x in r <==> x in xs
    ensures forall i, j | 0 <= i < j < |r| :: r[i] != r[j]
  {
    if xs == [] then []
    else
      var n := |xs| - 1;
      assert xs == xs[..n] + [xs[n]];
      if xs[n] in xs[..n] then Distinct(xs[..n]) else Distinct(xs[..n]) + [xs[n]]
  }
}
