/**
 What each operation of the executor does to the cells of the rows: conversion, filling, the order
 and stability of sorting, what makes two rows duplicates, derived columns, and projection.
 */
module OperationMeaning {
  import opened Values
  import opened ProcessingPlan
  import opened Aggregation
  import opened Processor
  import E = Expressions
  import ExpressionMeaning
  import RowMeaning

  // ----- cast -----

  /** The value converted so many times; null stays null. */
  function Recast(rt: Runtime, v: Value, dataType: string, times: nat): Value {
    if times == 0 then v
    else
      var before := Recast(rt, v, dataType, times - 1);
      if before.Null? then Null else rt.convert(before, dataType)
  }

  lemma {:induction false} CastKeys(rt: Runtime, row: Row, columns: seq<ColumnKey>, dataType: string)
    ensures CastRow(rt, row, columns, dataType).Keys == row.Keys + ToSet(columns)
  {
    if columns != [] {
      var n := |columns| - 1;
      CastKeys(rt, row, columns[..n], dataType);
      assert columns == columns[..n] + [columns[n]];
      assert ToSet(columns) == ToSet(columns[..n]) + {columns[n]};
    }
  }

  lemma CastLast(rt: Runtime, row: Row, columns: seq<ColumnKey>, dataType: string, c: ColumnKey)
    requires columns != []
    ensures var n := |columns| - 1; var before := Get(CastRow(rt, row, columns[..n], dataType), c);
      Get(CastRow(rt, row, columns, dataType), c)
      == if c != columns[n] then before else if before.Null? then Null else rt.convert(before, dataType)
  {}

  lemma CountLast(columns: seq<ColumnKey>, c: ColumnKey)
    requires columns != []
    ensures var n := |columns| - 1;
      multiset(columns)[c] == multiset(columns[..n])[c] + if c == columns[n] then 1 else 0
  {
    assert columns == columns[..|columns| - 1] + [columns[|columns| - 1]];
  }

  /** A cast converts each listed column once for every time it is listed, and nothing else. */
  lemma {:induction false} CastMeans(
    rt: Runtime, row: Row, columns: seq<ColumnKey>, dataType: string, c: ColumnKey)
    ensures Get(CastRow(rt, row, columns, dataType), c) == Recast(rt, Get(row, c), dataType, multiset(columns)[c])
  {
    if columns == [] {
      assert multiset(columns)[c] == 0;
    } else {
      CastMeans(rt, row, columns[..|columns| - 1], dataType, c);
      CastLast(rt, row, columns, dataType, c);
      CountLast(columns, c);
    }
  }

  // ----- fill_missing -----

  /** The numbers of a column, from the first row on. */
  function ColumnNumbers(rows: seq<Row>, c: ColumnKey): seq<real> {
    if rows == [] then []
    else
      var v := Get(rows[0], c);
      (if IsNumber(v) then [AsReal(v)] else []) + ColumnNumbers(rows[1..], c)
  }

  /** How many cells of a column equal the value. */
  function CellCount(rows: seq<Row>, c: ColumnKey, v: Value): nat {
    if rows == [] then 0
    else (if Get(rows[0], c) != Null && PyEqual(Get(rows[0], c), v) then 1 else 0) + CellCount(rows[1..], c, v)
  }

  /** Row `i` has the first value of greatest count. */
  predicate Commonest(rows: seq<Row>, c: ColumnKey, i: nat) {
    && i < |rows| && Get(rows[i], c) != Null
    && forall j | 0 <= j < |rows| && Get(rows[j], c) != Null ::
         var a, b := CellCount(rows, c, Get(rows[j], c)), CellCount(rows, c, Get(rows[i], c));
         if j < i then a < b else a <= b
  }

  ghost predicate Fills(rt: Runtime, rows: seq<Row>, c: ColumnKey, strategy: string, fill: Value) {
    if forall i | 0 <= i < |rows| :: Get(rows[i], c) == Null then fill == Null
    else if strategy == "median" then
      var xs := ColumnNumbers(rows, c);
      fill == if xs == [] then Null else Float(rt.median(xs))
    else if strategy == "mode" then exists i: nat :: Commonest(rows, c, i) && fill == Get(rows[i], c)
    else fill == if strategy == "zero" then Int(0) else Null
  }

  lemma {:induction false} NumbersFront(values: seq<Value>)
    requires values != []
    ensures Numbers(values) == (if IsNumber(values[0]) then [AsReal(values[0])] else []) + Numbers(values[1..])
  {
    var n := |values| - 1;
    if n > 0 {
      NumbersFront(values[..n]);
      assert values[..n][1..] == values[1..][..n - 1] && values[1..][n - 1] == values[n];
    }
  }

  lemma {:induction false} ReadNumbers(rows: seq<Row>, c: ColumnKey)
    requires ColumnValues(rows, c).Ok?
    ensures Numbers(ColumnValues(rows, c).value) == ColumnNumbers(rows, c)
  {
    if rows != [] {
      ReadNumbers(rows[1..], c);
      var tail := ColumnValues(rows[1..], c).value;
      if rows[0][c] != Null {
        NumbersFront([rows[0][c]] + tail);
        assert ([rows[0][c]] + tail)[1..] == tail;
      }
    }
  }

  lemma {:induction false} ReadCounts(rows: seq<Row>, c: ColumnKey, v: Value)
    requires ColumnValues(rows, c).Ok?
    ensures Occurrences(ColumnValues(rows, c).value, v) == CellCount(rows, c, v)
  {
    if rows != [] {
      ReadCounts(rows[1..], c, v);
      var tail := ColumnValues(rows[1..], c).value;
      if rows[0][c] != Null { assert ([rows[0][c]] + tail)[1..] == tail; }
    }
  }

  /** The most common candidate is the first of those that occur most often. */
  lemma {:induction false} MostCommonFirst(values: seq<Value>, candidates: seq<Value>) returns (k: nat)
    requires candidates != []
    ensures k < |candidates| && MostCommon(values, candidates) == candidates[k]
    ensures forall j | 0 <= j < |candidates| ::
      if j < k then Occurrences(values, candidates[j]) < Occurrences(values, candidates[k])
      else Occurrences(values, candidates[j]) <= Occurrences(values, candidates[k])
  {
    k := 0;
    if |candidates| > 1 {
      var later := MostCommonFirst(values, candidates[1..]);
      assert forall j | 0 < j < |candidates| :: candidates[j] == candidates[1..][j - 1];
      if Occurrences(values, candidates[1..][later]) > Occurrences(values, candidates[0]) { k := later + 1; }
    }
  }

  /** Which row each value of a column was read from, in order. */
  predicate Places(rows: seq<Row>, c: ColumnKey, values: seq<Value>, places: seq<nat>) {
    && |places| == |values|
    && (forall k | 0 <= k < |places| :: places[k] < |rows| && Get(rows[places[k]], c) == values[k] != Null)
    && (forall k, m | 0 <= k < m < |places| :: places[k] < places[m])
    && (forall i: nat | i < |rows| && Get(rows[i], c) != Null :: i in places)
  }

  function Moved(places: seq<nat>): seq<nat> { seq(|places|, k requires 0 <= k < |places| => places[k] + 1) }

  lemma MovedComplete(rows: seq<Row>, c: ColumnKey, places: seq<nat>, i: nat)
    requires 0 < i < |rows| && i - 1 in places
    ensures i in Moved(places)
  {
    var k :| 0 <= k < |places| && places[k] == i - 1;
    assert Moved(places)[k] == i;
  }

  lemma MovedPlaces(rows: seq<Row>, c: ColumnKey, values: seq<Value>, places: seq<nat>)
    requires rows != [] && Places(rows[1..], c, values, places)
    ensures var moved := Moved(places);
      && (forall k | 0 <= k < |moved| :: 0 < moved[k] < |rows| && Get(rows[moved[k]], c) == values[k] != Null)
      && (forall k, m | 0 <= k < m < |moved| :: moved[k] < moved[m])
      && (forall i: nat | 0 < i < |rows| && Get(rows[i], c) != Null :: i in moved)
  {
    assert forall k | 0 <= k < |places| :: rows[places[k] + 1] == rows[1..][places[k]];
    forall i: nat | 0 < i < |rows| && Get(rows[i], c) != Null ensures i in Moved(places) {
      assert rows[1..][i - 1] == rows[i];
      MovedComplete(rows, c, places, i);
    }
  }

  lemma PlacesMoved(rows: seq<Row>, c: ColumnKey, values: seq<Value>, places: seq<nat>)
    requires rows != [] && Places(rows[1..], c, values, places)
    ensures if Get(rows[0], c) == Null then Places(rows, c, values, Moved(places))
            else Places(rows, c, [Get(rows[0], c)] + values, [0] + Moved(places))
  {
    MovedPlaces(rows, c, values, places);
    if Get(rows[0], c) != Null { FirstPlace(rows, c, values, Moved(places)); }
  }

  lemma FirstPlace(rows: seq<Row>, c: ColumnKey, values: seq<Value>, moved: seq<nat>)
    requires rows != [] && Get(rows[0], c) != Null && |moved| == |values|
    requires forall k | 0 <= k < |moved| :: 0 < moved[k] < |rows| && Get(rows[moved[k]], c) == values[k] != Null
    requires forall k, m | 0 <= k < m < |moved| :: moved[k] < moved[m]
    requires forall i: nat | 0 < i < |rows| && Get(rows[i], c) != Null :: i in moved
    ensures Places(rows, c, [Get(rows[0], c)] + values, [0] + moved)
  {
    FirstRead(rows, c, values, moved);
    FirstOrdered(moved);
    FirstComplete(rows, c, moved);
  }

  lemma FirstRead(rows: seq<Row>, c: ColumnKey, values: seq<Value>, moved: seq<nat>)
    requires rows != [] && Get(rows[0], c) != Null && |moved| == |values|
    requires forall k | 0 <= k < |moved| :: 0 < moved[k] < |rows| && Get(rows[moved[k]], c) == values[k] != Null
    ensures var places, more := [0] + moved, [Get(rows[0], c)] + values;
      forall k | 0 <= k < |places| :: places[k] < |rows| && Get(rows[places[k]], c) == more[k] != Null
  {
    var places, more := [0] + moved, [Get(rows[0], c)] + values;
    forall k | 0 <= k < |places| ensures places[k] < |rows| && Get(rows[places[k]], c) == more[k] != Null {
      if k > 0 { assert places[k] == moved[k - 1] && more[k] == values[k - 1]; }
    }
  }

  lemma FirstOrdered(moved: seq<nat>)
    requires forall k | 0 <= k < |moved| :: 0 < moved[k]
    requires forall k, m | 0 <= k < m < |moved| :: moved[k] < moved[m]
    ensures var places := [0] + moved; forall k, m | 0 <= k < m < |places| :: places[k] < places[m]
  {
    var places := [0] + moved;
    forall k, m | 0 <= k < m < |places| ensures places[k] < places[m] {
      assert places[m] == moved[m - 1];
      if k > 0 { assert places[k] == moved[k - 1]; }
    }
  }

  lemma FirstComplete(rows: seq<Row>, c: ColumnKey, moved: seq<nat>)
    requires forall i: nat | 0 < i < |rows| && Get(rows[i], c) != Null :: i in moved
    ensures forall i: nat | i < |rows| && Get(rows[i], c) != Null :: i in [0] + moved
  {
    forall i: nat | i < |rows| && Get(rows[i], c) != Null ensures i in [0] + moved {
      if i > 0 { assert i in moved; }
    }
  }

  lemma {:induction false} ReadPlaces(rows: seq<Row>, c: ColumnKey) returns (places: seq<nat>)
    requires ColumnValues(rows, c).Ok?
    ensures Places(rows, c, ColumnValues(rows, c).value, places)
  {
    places := [];
    if rows != [] {
      var rest := ReadPlaces(rows[1..], c);
      PlacesMoved(rows, c, ColumnValues(rows[1..], c).value, rest);
      places := if rows[0][c] == Null then Moved(rest) else [0] + Moved(rest);
    }
  }

  lemma ModePlace(rows: seq<Row>, c: ColumnKey, values: seq<Value>, places: seq<nat>, k: nat, j: nat)
    requires ColumnValues(rows, c) == Ok(values) && Places(rows, c, values, places) && k < |values|
    requires forall m | 0 <= m < |values| ::
      if m < k then Occurrences(values, values[m]) < Occurrences(values, values[k])
      else Occurrences(values, values[m]) <= Occurrences(values, values[k])
    requires j < |rows| && Get(rows[j], c) != Null
    ensures var a, b := CellCount(rows, c, Get(rows[j], c)), CellCount(rows, c, Get(rows[places[k]], c));
      if j < places[k] then a < b else a <= b
  {
    var m :| 0 <= m < |places| && places[m] == j;
    ReadCounts(rows, c, values[m]);
    ReadCounts(rows, c, values[k]);
    assert j < places[k] ==> m < k;
  }

  lemma ModeFills(rows: seq<Row>, c: ColumnKey) returns (i: nat)
    requires ColumnValues(rows, c).Ok? && ColumnValues(rows, c).value != []
    ensures Commonest(rows, c, i)
    ensures Get(rows[i], c) == MostCommon(ColumnValues(rows, c).value, ColumnValues(rows, c).value)
  {
    var values := ColumnValues(rows, c).value;
    var places := ReadPlaces(rows, c);
    var k := MostCommonFirst(values, values);
    i := places[k];
    forall j | 0 <= j < |rows| && Get(rows[j], c) != Null
      ensures var a, b := CellCount(rows, c, Get(rows[j], c)), CellCount(rows, c, Get(rows[i], c));
        if j < i then a < b else a <= b
    {
      ModePlace(rows, c, values, places, k, j);
    }
  }

  lemma FillValueMeans(rt: Runtime, rows: seq<Row>, c: ColumnKey, strategy: string)
    requires FillValue(rt, rows, c, strategy).Ok?
    ensures Fills(rt, rows, c, strategy, FillValue(rt, rows, c, strategy).value)
  {
    var values := ColumnValues(rows, c).value;
    var places := ReadPlaces(rows, c);
    if values == [] {
      assert forall i | 0 <= i < |rows| :: Get(rows[i], c) == Null;
    } else {
      assert Get(rows[places[0]], c) != Null;
      ReadNumbers(rows, c);
      if strategy == "mode" {
        var i := ModeFills(rows, c);
      }
    }
  }

  // ----- what a column is filled with depends on that column alone -----

  predicate SameCells(a: seq<Row>, b: seq<Row>, c: ColumnKey) {
    |a| == |b| && forall i | 0 <= i < |a| :: Get(a[i], c) == Get(b[i], c)
  }

  lemma {:induction false} SameReadings(a: seq<Row>, b: seq<Row>, c: ColumnKey, v: Value)
    requires SameCells(a, b, c)
    ensures ColumnNumbers(a, c) == ColumnNumbers(b, c) && CellCount(a, c, v) == CellCount(b, c, v)
    decreases |a|
  {
    if a != [] { SameReadings(a[1..], b[1..], c, v); }
  }

  lemma SameFill(rt: Runtime, a: seq<Row>, b: seq<Row>, c: ColumnKey, strategy: string, fill: Value)
    requires SameCells(a, b, c) && Fills(rt, a, c, strategy, fill)
    ensures Fills(rt, b, c, strategy, fill)
  {
    SameReadings(a, b, c, Null);
    if strategy == "mode" && exists i :: 0 <= i < |a| && Get(a[i], c) != Null {
      var i: nat :| Commonest(a, c, i) && fill == Get(a[i], c);
      forall j | 0 <= j < |b| ensures CellCount(a, c, Get(a[j], c)) == CellCount(b, c, Get(b[j], c)) {
        SameReadings(a, b, c, Get(a[j], c));
      }
      assert Commonest(b, c, i);
    }
  }

  predicate Filled(rows: seq<Row>, after: seq<Row>, c: ColumnKey, fill: Value) {
    |after| == |rows| && forall i | 0 <= i < |rows| ::
      Get(after[i], c) == if Get(rows[i], c) == Null then fill else Get(rows[i], c)
  }

  /**
   Filling replaces the nulls of every listed column by the median of its numbers, its first most
   common value or zero, as the strategy says, and by nothing when the column has none.
   */
  lemma {:induction false} FillMeans(
    rt: Runtime, rows: seq<Row>, columns: seq<ColumnKey>, strategy: string, c: ColumnKey) returns (fill: Value)
    requires FillColumns(rt, rows, columns, strategy).Ok?
    ensures var after := FillColumns(rt, rows, columns, strategy).value;
      if c in columns then Fills(rt, rows, c, strategy, fill) && Filled(rows, after, c, fill)
      else SameCells(rows, after, c)
    decreases |columns|
  {
    fill := Null;
    if columns != [] {
      var d := columns[0];
      var f := FillValue(rt, rows, d, strategy).value;
      var next := FillColumn(rows, d, f);
      RowMeaning.FillColumnCells(rows, d, f, c);
      fill := FillMeans(rt, next, columns[1..], strategy, c);
      FillValueMeans(rt, rows, d, strategy);
      if d != c {
        if c in columns[1..] { SameFill(rt, next, rows, c, strategy, fill); }
      } else if f != Null || c !in columns[1..] {
        fill := f;
      } else {
        SameFill(rt, next, rows, c, strategy, fill);
      }
    }
  }

  // ----- deduplicate -----

  /** Two rows are duplicates exactly when every column of the one is written like that of the other. */
  lemma {:induction false} MarkerMeans(rt: Runtime, a: Row, b: Row, columns: seq<ColumnKey>)
    ensures Marker(rt, a, columns).Ok? <==> forall c | c in columns :: c in a
    ensures Marker(rt, a, columns).Ok? && Marker(rt, b, columns).Ok? ==>
      (Marker(rt, a, columns) == Marker(rt, b, columns) <==>
        forall c | c in columns :: rt.repr(Get(a, c)) == rt.repr(Get(b, c)))
    decreases |columns|
  {
    if columns != [] {
      MarkerMeans(rt, a, b, columns[1..]);
      assert forall c | c in columns :: c == columns[0] || c in columns[1..];
      if Marker(rt, a, columns).Ok? && Marker(rt, b, columns).Ok? {
        MarkerSplit(rt, a, b, columns);
      }
    }
  }

  lemma MarkerSplit(rt: Runtime, a: Row, b: Row, columns: seq<ColumnKey>)
    requires columns != [] && Marker(rt, a, columns).Ok? && Marker(rt, b, columns).Ok?
    ensures Marker(rt, a, columns[1..]).Ok? && Marker(rt, b, columns[1..]).Ok?
    ensures Marker(rt, a, columns) == Marker(rt, b, columns) <==>
      rt.repr(Get(a, columns[0])) == rt.repr(Get(b, columns[0]))
      && Marker(rt, a, columns[1..]) == Marker(rt, b, columns[1..])
  {
    var x, y := Marker(rt, a, columns).value, Marker(rt, b, columns).value;
    assert x[1..] == Marker(rt, a, columns[1..]).value && y[1..] == Marker(rt, b, columns[1..]).value;
    assert x[0] == rt.repr(Get(a, columns[0])) && y[0] == rt.repr(Get(b, columns[0]));
    assert x == [x[0]] + x[1..] && y == [y[0]] + y[1..];
  }

  // ----- sort -----

  /** Two cells of the same rank: both null, or the same text. */
  predicate Ties(rt: Runtime, x: Value, y: Value) { x.Null? == y.Null? && (x.Null? || Text(rt, x) == Text(rt, y)) }

  /** Texts come in their order, and null last. */
  ghost predicate Comes(rt: Runtime, x: Value, y: Value) {
    if x.Null? then false else y.Null? || ExpressionMeaning.Precedes(Text(rt, x), Text(rt, y))
  }

  /** The rows tie in the first `k` columns, and the next one puts `a` before `b`. */
  ghost predicate ComesAt(rt: Runtime, a: Row, b: Row, columns: seq<ColumnKey>, k: nat) {
    && k < |columns| && (forall i | 0 <= i < k :: Ties(rt, Get(a, columns[i]), Get(b, columns[i])))
    && Comes(rt, Get(a, columns[k]), Get(b, columns[k]))
  }

  ghost predicate ComesFirst(rt: Runtime, a: Row, b: Row, columns: seq<ColumnKey>) {
    exists k: nat :: ComesAt(rt, a, b, columns, k)
  }

  lemma {:induction false} TextTotal(a: string, b: string)
    ensures !TextLess(a, b) && !TextLess(b, a) <==> a == b
  {
    if a != "" && b != "" && a[0] == b[0] {
      TextTotal(a[1..], b[1..]);
      assert a == [a[0]] + a[1..] && b == [b[0]] + b[1..];
    }
  }

  lemma CellsCompare(rt: Runtime, x: Value, y: Value)
    ensures SortsBefore(rt, x, y) <==> Comes(rt, x, y)
    ensures !SortsBefore(rt, x, y) && !SortsBefore(rt, y, x) <==> Ties(rt, x, y)
  {
    TextTotal(Text(rt, x), Text(rt, y));
    ExpressionMeaning.TextLessMeans(Text(rt, x), Text(rt, y));
  }

  lemma ComesNext(rt: Runtime, a: Row, b: Row, columns: seq<ColumnKey>)
    requires columns != [] && Ties(rt, Get(a, columns[0]), Get(b, columns[0]))
    requires !Comes(rt, Get(a, columns[0]), Get(b, columns[0]))
    ensures ComesFirst(rt, a, b, columns) <==> ComesFirst(rt, a, b, columns[1..])
  {
    if ComesFirst(rt, a, b, columns) {
      var k: nat :| ComesAt(rt, a, b, columns, k);
      assert k > 0;
      assert forall i | 0 <= i < k - 1 :: columns[1..][i] == columns[i + 1];
      assert ComesAt(rt, a, b, columns[1..], k - 1);
    }
    if ComesFirst(rt, a, b, columns[1..]) {
      var k: nat :| ComesAt(rt, a, b, columns[1..], k);
      forall i | 0 <= i < k + 1 ensures Ties(rt, Get(a, columns[i]), Get(b, columns[i])) {
        if i > 0 { assert columns[i] == columns[1..][i - 1]; }
      }
      assert ComesAt(rt, a, b, columns, k + 1);
    }
  }

  lemma NotFirst(rt: Runtime, a: Row, b: Row, columns: seq<ColumnKey>)
    requires columns != [] && !Ties(rt, Get(a, columns[0]), Get(b, columns[0]))
    requires !Comes(rt, Get(a, columns[0]), Get(b, columns[0]))
    ensures !ComesFirst(rt, a, b, columns)
  {
    forall k: nat ensures !ComesAt(rt, a, b, columns, k) {}
  }

  lemma {:induction false} RowsCompare(rt: Runtime, a: Row, b: Row, columns: seq<ColumnKey>)
    ensures RowBefore(rt, a, b, columns) <==> ComesFirst(rt, a, b, columns)
    decreases |columns|
  {
    if columns != [] {
      var x, y := Get(a, columns[0]), Get(b, columns[0]);
      CellsCompare(rt, x, y);
      CellsCompare(rt, y, x);
      if Comes(rt, x, y) {
        assert ComesAt(rt, a, b, columns, 0);
      } else if Ties(rt, x, y) {
        RowsCompare(rt, a, b, columns[1..]);
        ComesNext(rt, a, b, columns);
      } else {
        NotFirst(rt, a, b, columns);
      }
    }
  }

  /** No row comes strictly before one that stands before it, or after it when the order is reversed. */
  lemma SortMeans(rt: Runtime, rows: seq<Row>, columns: seq<ColumnKey>, reverse: bool, i: nat, j: nat)
    requires i < j < |SortRows(rt, rows, columns, reverse)|
    ensures var sorted := SortRows(rt, rows, columns, reverse);
      if reverse then !ComesFirst(rt, sorted[i], sorted[j], columns) else !ComesFirst(rt, sorted[j], sorted[i], columns)
  {
    var sorted := SortRows(rt, rows, columns, reverse);
    RowMeaning.SortRowsSorted(rt, rows, columns, reverse);
    assert RowMeaning.NotAfter(rt, sorted[i], sorted[j], columns, reverse);
    RowsCompare(rt, sorted[i], sorted[j], columns);
    RowsCompare(rt, sorted[j], sorted[i], columns);
  }

  // ----- stability -----

  /** Rows that tie in every column. */
  predicate Tied(rt: Runtime, a: Row, b: Row, columns: seq<ColumnKey>) {
    forall c | c in columns :: Ties(rt, Get(a, c), Get(b, c))
  }

  lemma {:induction false} TiedMeans(rt: Runtime, a: Row, b: Row, columns: seq<ColumnKey>)
    ensures !RowBefore(rt, a, b, columns) && !RowBefore(rt, b, a, columns) <==> Tied(rt, a, b, columns)
    decreases |columns|
  {
    if columns != [] {
      CellsCompare(rt, Get(a, columns[0]), Get(b, columns[0]));
      TiedMeans(rt, a, b, columns[1..]);
      assert forall c | c in columns :: c == columns[0] || c in columns[1..];
    }
  }

  /** The rows that tie with this one, in order. */
  function TiedRows(rt: Runtime, rows: seq<Row>, r: Row, columns: seq<ColumnKey>): seq<Row> {
    if rows == [] then []
    else (if Tied(rt, rows[0], r, columns) then [rows[0]] else []) + TiedRows(rt, rows[1..], r, columns)
  }

  lemma {:induction false} TiedAppend(rt: Runtime, rows: seq<Row>, row: Row, r: Row, columns: seq<ColumnKey>)
    ensures TiedRows(rt, rows + [row], r, columns)
         == TiedRows(rt, rows, r, columns) + if Tied(rt, row, r, columns) then [row] else []
  {
    if rows == [] {
      assert rows + [row] == [row] && [row][1..] == [];
    } else {
      assert (rows + [row])[1..] == rows[1..] + [row];
      TiedAppend(rt, rows[1..], row, r, columns);
    }
  }

  lemma {:induction false} NoneTied(rt: Runtime, rows: seq<Row>, r: Row, columns: seq<ColumnKey>)
    requires forall i | 0 <= i < |rows| :: !Tied(rt, rows[i], r, columns)
    ensures TiedRows(rt, rows, r, columns) == []
  {
    if rows != [] {
      assert forall i | 0 <= i < |rows[1..]| :: rows[1..][i] == rows[i + 1];
      NoneTied(rt, rows[1..], r, columns);
    }
  }

  /** A row put before the first of sorted rows ties with none of them. */
  lemma BeforeAll(rt: Runtime, sorted: seq<Row>, row: Row, columns: seq<ColumnKey>, reverse: bool, i: nat)
    requires i < |sorted| && RowMeaning.Sorted(rt, sorted, columns, reverse)
    requires if reverse then RowBefore(rt, sorted[0], row, columns) else RowBefore(rt, row, sorted[0], columns)
    ensures if reverse then RowBefore(rt, sorted[i], row, columns) else RowBefore(rt, row, sorted[i], columns)
  {
    if i > 0 {
      assert RowMeaning.NotAfter(rt, sorted[0], sorted[i], columns, reverse);
      RowMeaning.RowOrder(rt, row, sorted[i], sorted[0], columns);
      RowMeaning.RowOrder(rt, sorted[0], sorted[i], row, columns);
    }
  }

  lemma TiedBoth(rt: Runtime, a: Row, b: Row, r: Row, columns: seq<ColumnKey>)
    requires Tied(rt, a, r, columns) && Tied(rt, b, r, columns)
    ensures !RowBefore(rt, a, b, columns) && !RowBefore(rt, b, a, columns)
  {
    forall c | c in columns ensures Ties(rt, Get(a, c), Get(b, c)) {
      assert Ties(rt, Get(a, c), Get(r, c)) && Ties(rt, Get(b, c), Get(r, c));
    }
    TiedMeans(rt, a, b, columns);
  }

  /** In front of sorted rows a row is alone with those it ties with. */
  lemma FrontTied(rt: Runtime, sorted: seq<Row>, row: Row, columns: seq<ColumnKey>, reverse: bool, r: Row)
    requires sorted != [] && RowMeaning.Sorted(rt, sorted, columns, reverse)
    requires if reverse then RowBefore(rt, sorted[0], row, columns) else RowBefore(rt, row, sorted[0], columns)
    requires Tied(rt, row, r, columns)
    ensures TiedRows(rt, sorted, r, columns) == []
  {
    forall i | 0 <= i < |sorted| ensures !Tied(rt, sorted[i], r, columns) {
      BeforeAll(rt, sorted, row, columns, reverse, i);
      if Tied(rt, sorted[i], r, columns) { TiedBoth(rt, sorted[i], row, r, columns); }
    }
    NoneTied(rt, sorted, r, columns);
  }

  lemma TiedCons(rt: Runtime, row: Row, rest: seq<Row>, r: Row, columns: seq<ColumnKey>)
    ensures TiedRows(rt, [row] + rest, r, columns)
         == (if Tied(rt, row, r, columns) then [row] else []) + TiedRows(rt, rest, r, columns)
  {
    assert ([row] + rest)[1..] == rest;
  }

  lemma SortedTail(rt: Runtime, sorted: seq<Row>, columns: seq<ColumnKey>, reverse: bool)
    requires sorted != [] && RowMeaning.Sorted(rt, sorted, columns, reverse)
    ensures RowMeaning.Sorted(rt, sorted[1..], columns, reverse)
  {
    forall i, j | 0 <= i < j < |sorted[1..]|
      ensures RowMeaning.NotAfter(rt, sorted[1..][i], sorted[1..][j], columns, reverse)
    {
      assert RowMeaning.NotAfter(rt, sorted[i + 1], sorted[j + 1], columns, reverse);
    }
  }

  lemma InsertAt(rt: Runtime, sorted: seq<Row>, row: Row, columns: seq<ColumnKey>, reverse: bool) returns (front: bool)
    requires sorted != []
    ensures front == if reverse then RowBefore(rt, sorted[0], row, columns) else RowBefore(rt, row, sorted[0], columns)
    ensures InsertRow(rt, sorted, row, columns, reverse)
         == if front then [row] + sorted else [sorted[0]] + InsertRow(rt, sorted[1..], row, columns, reverse)
  {
    front := if reverse then RowBefore(rt, sorted[0], row, columns) else RowBefore(rt, row, sorted[0], columns);
  }

  lemma {:induction false} InsertTied(
    rt: Runtime, sorted: seq<Row>, row: Row, columns: seq<ColumnKey>, reverse: bool, r: Row)
    requires RowMeaning.Sorted(rt, sorted, columns, reverse)
    ensures TiedRows(rt, InsertRow(rt, sorted, row, columns, reverse), r, columns)
         == TiedRows(rt, sorted, r, columns) + if Tied(rt, row, r, columns) then [row] else []
    decreases |sorted|
  {
    if sorted == [] {
      assert [row][1..] == [];
    } else {
      var front := InsertAt(rt, sorted, row, columns, reverse);
      if front {
        TiedCons(rt, row, sorted, r, columns);
        if Tied(rt, row, r, columns) { FrontTied(rt, sorted, row, columns, reverse, r); }
      } else {
        SortedTail(rt, sorted, columns, reverse);
        InsertTied(rt, sorted[1..], row, columns, reverse, r);
        TiedCons(rt, sorted[0], InsertRow(rt, sorted[1..], row, columns, reverse), r, columns);
      }
    }
  }

  /** Sorting is stable, up or down: rows that tie keep their order. */
  lemma {:induction false} SortStable(rt: Runtime, rows: seq<Row>, columns: seq<ColumnKey>, reverse: bool, r: Row)
    ensures TiedRows(rt, SortRows(rt, rows, columns, reverse), r, columns) == TiedRows(rt, rows, r, columns)
  {
    if rows != [] {
      var n := |rows| - 1;
      var before := SortRows(rt, rows[..n], columns, reverse);
      SortStable(rt, rows[..n], columns, reverse, r);
      SortLast(rt, rows, columns, reverse, before, r);
      TiedAppend(rt, rows[..n], rows[n], r, columns);
      assert rows == rows[..n] + [rows[n]];
    }
  }

  lemma SortLast(rt: Runtime, rows: seq<Row>, columns: seq<ColumnKey>, reverse: bool, before: seq<Row>, r: Row)
    requires rows != [] && before == SortRows(rt, rows[..|rows| - 1], columns, reverse)
    ensures TiedRows(rt, SortRows(rt, rows, columns, reverse), r, columns)
         == TiedRows(rt, before, r, columns) + if Tied(rt, rows[|rows| - 1], r, columns) then [rows[|rows| - 1]] else []
  {
    RowMeaning.SortRowsSorted(rt, rows[..|rows| - 1], columns, reverse);
    InsertTied(rt, before, rows[|rows| - 1], columns, reverse, r);
  }

  // ----- derived columns -----

  lemma {:induction false} ValuesInOrder(rt: Runtime, op: Operation, rows: seq<Row>)
    requires IsRowWise(op.kind) && DerivedValues(rt, op, rows).Ok?
    ensures forall i | 0 <= i < |rows| :: DerivedValue(rt, op, rows[i]) == Ok(DerivedValues(rt, op, rows).value[i])
  {
    if rows != [] {
      var n := |rows| - 1;
      ValuesInOrder(rt, op, rows[..n]);
      assert forall i | 0 <= i < n :: rows[..n][i] == rows[i];
    }
  }

  /** A row-wise derivation puts under its target what it computes from each row, and nothing else. */
  lemma DeriveMeans(rt: Runtime, op: Operation, rows: seq<Row>, i: nat)
    requires IsRowWise(op.kind) && op.target.Some? && Derive(rt, op, rows).Ok? && i < |rows|
    ensures |Derive(rt, op, rows).value| == |rows| && DerivedValue(rt, op, rows[i]).Ok?
    ensures Derive(rt, op, rows).value[i] == rows[i][op.target.value := DerivedValue(rt, op, rows[i]).value]
  {
    ValuesInOrder(rt, op, rows);
  }

  /** An expression's value is that of the operation of its name. */
  lemma ExpressionValue(rt: Runtime, op: Operation, row: Row)
    requires IsExpression(op.kind)
    ensures DerivedValue(rt, op, row) == E.EvaluateOperation(rt,
      match op.kind
        case Compare => "compare"
        case Logical => "logical"
        case Conditional => "conditional"
        case Arithmetic => "arithmetic"
        case _ => "map_values",
      op.parameters, row)
  {
    var entries: Fields := map["operation" := Str(ExpressionName(op.kind)), "parameters" := Dict(op.parameters)];
    assert "operation" in entries.Keys && "operation" !in {"column"} && "operation" !in {"literal"};
  }

  /** The part of a date in the operation's time zone, UTC when it has none; null stays null. */
  lemma DatePartValue(rt: Runtime, op: Operation, row: Row, source: ColumnKey)
    requires op.kind.DeriveDatePart? && op.sources == [source] && "part" in op.parameters
    ensures DerivedValue(rt, op, row) == Ok(
      if Get(row, source) == Null then Null
      else rt.datePart(Get(row, source), Text(rt, op.parameters["part"]),
             if "timezone" in op.parameters then Text(rt, op.parameters["timezone"]) else "UTC"))
  {}

  /** The number a cell counts as in a bucket. */
  predicate BucketReads(rt: Runtime, v: Value, x: real) {
    match v
    case Bool(b) => x == if b then 1.0 else 0.0
    case Int(n) => x == n as real
    case Float(q) => x == q
    case Str(s) => rt.parseFloat(s) == Some(x)
    case _ => false
  }

  /** What the operation's bounds and labels are. */
  predicate Buckets(op: Operation, source: ColumnKey, bins: seq<real>, labels: seq<Value>) {
    && op.kind.Bucketize? && op.sources == [source] && |bins| >= 2 && Bins(op) == Ok(bins)
    && if Get(op.parameters, "labels") == Null then labels == []
       else op.parameters["labels"] == List(labels) && |labels| == |bins| - 1
  }

  lemma BucketSearched(
    rt: Runtime, op: Operation, row: Row, source: ColumnKey, bins: seq<real>, labels: seq<Value>, x: real)
    requires Buckets(op, source, bins, labels) && BucketReads(rt, Get(row, source), x)
    ensures DerivedValue(rt, op, row) == BucketFrom(rt, x, bins, labels, 0)
  {}

  /** A number gets the label of an interval that holds it, and none exactly when it is out of range. */
  lemma BucketValue(
    rt: Runtime, op: Operation, row: Row, source: ColumnKey, bins: seq<real>, labels: seq<Value>, x: real)
    requires Buckets(op, source, bins, labels) && BucketReads(rt, Get(row, source), x)
    ensures DerivedValue(rt, op, row) == Ok(Null) <==> x < bins[0] || bins[|bins| - 1] < x
    ensures bins[0] <= x <= bins[|bins| - 1] ==> exists k: nat ::
      k + 1 < |bins| && RowMeaning.InInterval(x, bins, k)
      && DerivedValue(rt, op, row)
         == Ok(Str(if labels == [] then rt.rangeLabel(bins[k], bins[k + 1]) else Text(rt, labels[k])))
  {
    BucketSearched(rt, op, row, source, bins, labels, x);
    BoundsAscend(op, bins);
    RowMeaning.BucketIff(rt, x, bins, labels);
  }

  lemma BoundsAscend(op: Operation, bins: seq<real>)
    requires Bins(op) == Ok(bins)
    ensures RowMeaning.Ascending(bins)
  {
    RowMeaning.SortedRealsAscending(Numbers(op.parameters["bins"].items));
  }

  lemma NumberReads(rt: Runtime, v: Value)
    ensures BucketNumber(rt, v).Some? ==> BucketReads(rt, v, BucketNumber(rt, v).value)
  {}

  /** A cell that counts as no number falls into no bucket. */
  lemma NoBucket(rt: Runtime, op: Operation, row: Row, source: ColumnKey, bins: seq<real>, labels: seq<Value>)
    requires Buckets(op, source, bins, labels) && forall x: real :: !BucketReads(rt, Get(row, source), x)
    ensures DerivedValue(rt, op, row) == Ok(Null)
  {
    NumberReads(rt, Get(row, source));
  }

  /** The bounds used are the given numbers, each as often as given. */
  lemma {:induction false} InsertedReal(sorted: seq<real>, x: real)
    ensures multiset(InsertReal(sorted, x)) == multiset(sorted) + multiset{x}
  {
    if !(sorted == [] || x < sorted[0]) {
      InsertedReal(sorted[1..], x);
      assert sorted == [sorted[0]] + sorted[1..];
    }
  }

  lemma {:induction false} SortedRealsKeep(numbers: seq<real>)
    ensures multiset(SortedReals(numbers)) == multiset(numbers)
  {
    if numbers != [] {
      var n := |numbers| - 1;
      SortedRealsKeep(numbers[..n]);
      InsertedReal(SortedReals(numbers[..n]), numbers[n]);
      assert numbers == numbers[..n] + [numbers[n]];
    }
  }

  // ----- projection and input -----

  /** A projection keeps the listed cells, null where a row has none. */
  lemma ProjectMeans(rows: seq<Row>, columns: seq<ColumnKey>, i: nat)
    requires i < |rows|
    ensures |ProjectRows(rows, columns)| == |rows| && ProjectRows(rows, columns)[i].Keys == ToSet(columns)
    ensures forall c | c in columns :: ProjectRows(rows, columns)[i][c] == if c in rows[i] then rows[i][c] else Null
  {}

  /** Before the first operation every row has every column, and texts that mean null are null. */
  lemma InputMeans(rt: Runtime, rows: seq<Row>, columns: seq<ColumnKey>, i: nat)
    requires i < |rows|
    ensures var table := InputTable(rt, rows, columns);
      && table.columns == columns && |table.rows| == |rows| && table.rows[i].Keys == ToSet(columns)
      && forall c | c in columns ::
           var v := if c in rows[i] then rows[i][c] else Null;
           table.rows[i][c] == if v.Str? then rt.normalizeText(v.text) else v
  {}

  /** `left` and `right` stand for a list of two operands, in this order. */
  lemma LeftRightMeans(op: Operation)
    requires op.kind.Arithmetic? || op.kind.Logical?
    ensures var n := NormalizeParameters(op);
      && n == op.(parameters := n.parameters)
      && if "operands" in op.parameters then n == op
         else
           && "left" !in n.parameters && "right" !in n.parameters
           && (forall k | k in op.parameters && k != "left" && k != "right" && k != "operands" ::
                 k in n.parameters && n.parameters[k] == op.parameters[k])
           && if Get(op.parameters, "left") != Null && Get(op.parameters, "right") != Null
              then "operands" in n.parameters
                && n.parameters["operands"] == List([op.parameters["left"], op.parameters["right"]])
              else "operands" !in n.parameters
  {}
}
