/**
 What the executor's row operations mean: deduplication keeps the first row of every marker,
 filling leaves no gap in a column that has a value, a bucket is the interval that holds the
 number, and sorting gives ordered rows, each as often as before.
 */
module RowMeaning {
  import opened Values
  import opened Aggregation
  import opened Processor
  import opened Lineage

  // ----- deduplicate -----

  /** Row `i` is the first with its marker. */
  predicate FirstOfMarker(rt: Runtime, rows: seq<Row>, columns: seq<ColumnKey>, i: nat)
    requires i < |rows|
  {
    forall j | 0 <= j < i :: Marker(rt, rows[j], columns) != Marker(rt, rows[i], columns)
  }

  function FirstRows(rt: Runtime, rows: seq<Row>, columns: seq<ColumnKey>): seq<Row> {
    if rows == [] then []
    else
      var n := |rows| - 1;
      if FirstOfMarker(rt, rows, columns, n) then FirstRows(rt, rows[..n], columns) + [rows[n]]
      else FirstRows(rt, rows[..n], columns)
  }

  predicate Readable(rt: Runtime, rows: seq<Row>, columns: seq<ColumnKey>) {
    forall i | 0 <= i < |rows| :: Marker(rt, rows[i], columns).Ok?
  }

  function Markers(rt: Runtime, rows: seq<Row>, columns: seq<ColumnKey>): set<seq<string>>
    requires Readable(rt, rows, columns)
  {
    set i | 0 <= i < |rows| :: Marker(rt, rows[i], columns).value
  }

  lemma ReadableTail(rt: Runtime, rows: seq<Row>, columns: seq<ColumnKey>)
    requires rows != []
    ensures Readable(rt, rows, columns) <==> Marker(rt, rows[0], columns).Ok? && Readable(rt, rows[1..], columns)
  {
    assert forall i | 0 < i < |rows| :: rows[i] == rows[1..][i - 1];
  }

  lemma FirstNext(rt: Runtime, before: seq<Row>, row: Row, columns: seq<ColumnKey>)
    requires Readable(rt, before, columns) && Marker(rt, row, columns).Ok?
    ensures FirstRows(rt, before + [row], columns)
         == if Marker(rt, row, columns).value in Markers(rt, before, columns) then FirstRows(rt, before, columns)
            else FirstRows(rt, before, columns) + [row]
  {
    var more := before + [row];
    assert more[..|before|] == before && more[|before|] == row;
    assert forall i | 0 <= i < |before| :: more[i] == before[i];
  }

  lemma {:induction false} DedupeFrom(rt: Runtime, before: seq<Row>, rows: seq<Row>, columns: seq<ColumnKey>)
    requires Readable(rt, before, columns)
    ensures Dedupe(rt, rows, columns, Markers(rt, before, columns)).Ok? <==> Readable(rt, rows, columns)
    ensures Readable(rt, rows, columns) ==>
      FirstRows(rt, before + rows, columns)
      == FirstRows(rt, before, columns) + Dedupe(rt, rows, columns, Markers(rt, before, columns)).value
    decreases |rows|
  {
    if rows == [] {
      assert before + rows == before;
    } else {
      ReadableTail(rt, rows, columns);
      if Marker(rt, rows[0], columns).Ok? {
        MarkersNext(rt, before, rows[0], columns);
        FirstNext(rt, before, rows[0], columns);
        DedupeFrom(rt, before + [rows[0]], rows[1..], columns);
        DedupeStep(rt, rows, columns, Markers(rt, before, columns), FirstRows(rt, before, columns));
        assert before + rows == before + [rows[0]] + rows[1..];
      }
    }
  }

  lemma DedupeStep(rt: Runtime, rows: seq<Row>, columns: seq<ColumnKey>, seen: set<seq<string>>, first: seq<Row>)
    requires rows != [] && Marker(rt, rows[0], columns).Ok?
    ensures var marker := Marker(rt, rows[0], columns).value;
            var kept, tail := Dedupe(rt, rows, columns, seen), Dedupe(rt, rows[1..], columns, seen + {marker});
      && (kept.Ok? <==> tail.Ok?)
      && (tail.Ok? ==> first + kept.value == (if marker in seen then first else first + [rows[0]]) + tail.value)
  {
    var marker := Marker(rt, rows[0], columns).value;
    var tail := Dedupe(rt, rows[1..], columns, seen + {marker});
    if tail.Ok? { Regroup(first, rows[0], tail.value); }
  }

  lemma Regroup(first: seq<Row>, row: Row, rest: seq<Row>)
    ensures first + ([row] + rest) == (first + [row]) + rest
  {}

  lemma MarkersNext(rt: Runtime, before: seq<Row>, row: Row, columns: seq<ColumnKey>)
    requires Readable(rt, before, columns) && Marker(rt, row, columns).Ok?
    ensures Readable(rt, before + [row], columns)
    ensures Markers(rt, before + [row], columns) == Markers(rt, before, columns) + {Marker(rt, row, columns).value}
  {
    var more := before + [row];
    forall m | m in Markers(rt, before, columns) ensures m in Markers(rt, more, columns) {
      var i :| 0 <= i < |before| && Marker(rt, before[i], columns).value == m;
      assert more[i] == before[i];
    }
    assert more[|before|] == row;
  }

  /** Deduplication keeps exactly the first row of every marker, in order, or misses a column. */
  lemma DedupeKeepsFirst(rt: Runtime, rows: seq<Row>, columns: seq<ColumnKey>)
    ensures Dedupe(rt, rows, columns, {}).Ok? <==> Readable(rt, rows, columns)
    ensures Dedupe(rt, rows, columns, {}).Ok? ==> Dedupe(rt, rows, columns, {}).value == FirstRows(rt, rows, columns)
  {
    assert Markers(rt, [], columns) == {} && [] + rows == rows;
    DedupeFrom(rt, [], rows, columns);
  }

  // ----- fill_missing -----

  predicate HasValue(rows: seq<Row>, column: ColumnKey) { exists i :: 0 <= i < |rows| && !Get(rows[i], column).Null? }

  lemma {:induction false} ColumnHasValue(rows: seq<Row>, column: ColumnKey)
    requires ColumnValues(rows, column).Ok?
    ensures ColumnValues(rows, column).value != [] <==> HasValue(rows, column)
    ensures forall v | v in ColumnValues(rows, column).value :: !v.Null?
  {
    if rows != [] {
      ColumnHasValue(rows[1..], column);
      assert forall i | 0 < i < |rows| :: rows[i] == rows[1..][i - 1];
      if HasValue(rows[1..], column) {
        var i :| 0 <= i < |rows[1..]| && !Get(rows[1..][i], column).Null?;
        assert !Get(rows[i + 1], column).Null?;
      }
    }
  }

  lemma {:induction false} MostCommonMember(values: seq<Value>, candidates: seq<Value>)
    requires candidates != []
    ensures MostCommon(values, candidates) in candidates
    ensures forall v | v in candidates :: Occurrences(values, v) <= Occurrences(values, MostCommon(values, candidates))
  {
    if |candidates| > 1 {
      MostCommonMember(values, candidates[1..]);
      assert forall v | v in candidates :: v == candidates[0] || v in candidates[1..];
    }
  }

  /** The column holds what the strategy fills from: a number for the median, else any value. */
  predicate Fillable(rows: seq<Row>, column: ColumnKey, strategy: string) {
    if strategy == "median"
      then exists i :: 0 <= i < |rows| && IsNumber(Get(rows[i], column)) else HasValue(rows, column)
  }

  lemma {:induction false} SomeNumber(values: seq<Value>)
    ensures Numbers(values) != [] <==> exists v | v in values :: IsNumber(v)
  {
    if values != [] {
      var n := |values| - 1;
      SomeNumber(values[..n]);
      assert forall v | v in values :: v in values[..n] || v == values[n];
    }
  }

  lemma {:induction false} ColumnHasNumber(rows: seq<Row>, column: ColumnKey)
    requires ColumnValues(rows, column).Ok?
    ensures (exists v | v in ColumnValues(rows, column).value :: IsNumber(v)) <==> Fillable(rows, column, "median")
  {
    if rows != [] {
      ColumnHasNumber(rows[1..], column);
      assert forall i | 0 < i < |rows| :: rows[i] == rows[1..][i - 1];
      if Fillable(rows[1..], column, "median") {
        var i :| 0 <= i < |rows[1..]| && IsNumber(Get(rows[1..][i], column));
        assert IsNumber(Get(rows[i + 1], column));
      }
      assert forall v | v in ColumnValues(rows, column).value ::
        v == rows[0][column] || v in ColumnValues(rows[1..], column).value;
    }
  }

  /** Filling finds a value exactly for a column that holds what the strategy fills from. */
  lemma FillValueFound(rt: Runtime, rows: seq<Row>, column: ColumnKey, strategy: string)
    requires strategy in {"median", "mode", "zero"} && FillValue(rt, rows, column, strategy).Ok?
    ensures FillValue(rt, rows, column, strategy).value.Null? <==> !Fillable(rows, column, strategy)
  {
    ColumnHasValue(rows, column);
    ColumnHasNumber(rows, column);
    var values := ColumnValues(rows, column).value;
    SomeNumber(values);
    if values != [] { MostCommonMember(values, values); }
  }

  predicate Gapless(rows: seq<Row>, column: ColumnKey) {
    forall i | 0 <= i < |rows| :: !Get(rows[i], column).Null?
  }

  lemma FillColumnCells(rows: seq<Row>, column: ColumnKey, fill: Value, other: ColumnKey)
    ensures |FillColumn(rows, column, fill)| == |rows|
    ensures forall i | 0 <= i < |rows| ::
      Get(FillColumn(rows, column, fill)[i], other)
      == if other == column && !fill.Null? && Get(rows[i], other).Null? then fill else Get(rows[i], other)
  {}

  /** Filling one column leaves what any other column can be filled from. */
  lemma FillColumnKeeps(rows: seq<Row>, column: ColumnKey, fill: Value, other: ColumnKey, strategy: string)
    requires other != column || fill.Null?
    ensures Fillable(FillColumn(rows, column, fill), other, strategy) <==> Fillable(rows, other, strategy)
    ensures Gapless(FillColumn(rows, column, fill), other) <==> Gapless(rows, other)
  {
    FillColumnCells(rows, column, fill, other);
    var after := FillColumn(rows, column, fill);
    assert forall i | 0 <= i < |rows| :: Get(after[i], other) == Get(rows[i], other);
  }

  /**
   Filling changes only missing cells of the listed columns, and leaves a listed column without a
   gap exactly when it had none or holds what the strategy fills from: a number for the median, any
   value for mode and zero.
   */
  lemma {:induction false} FillLeavesNoGap(
    rt: Runtime, rows: seq<Row>, columns: seq<ColumnKey>, strategy: string, c: ColumnKey)
    requires strategy in {"median", "mode", "zero"} && FillColumns(rt, rows, columns, strategy).Ok?
    ensures var after := FillColumns(rt, rows, columns, strategy).value;
      && |after| == |rows|
      && (forall i | 0 <= i < |rows| && (!Get(rows[i], c).Null? || c !in columns) ::
        Get(after[i], c) == Get(rows[i], c))
      && (c in columns ==> (Gapless(after, c) <==> Gapless(rows, c) || Fillable(rows, c, strategy)))
    decreases |columns|
  {
    if columns != [] {
      var fill := FillValue(rt, rows, columns[0], strategy).value;
      FillValueFound(rt, rows, columns[0], strategy);
      FillColumnCells(rows, columns[0], fill, c);
      if c != columns[0] || fill.Null? { FillColumnKeeps(rows, columns[0], fill, c, strategy); }
      FillLeavesNoGap(rt, FillColumn(rows, columns[0], fill), columns[1..], strategy, c);
    }
  }

  /** How many of the first `i` rows are complete. */
  function CompleteBefore(rows: seq<Row>, columns: seq<ColumnKey>, i: nat): nat
    requires i <= |rows|
  {
    if i == 0 then 0 else CompleteBefore(rows, columns, i - 1) + if Complete(rows[i - 1], columns) then 1 else 0
  }

  lemma {:induction false} CompleteSplit(a: seq<Row>, b: seq<Row>, columns: seq<ColumnKey>)
    ensures CompleteRows(a + b, columns) == CompleteRows(a, columns) + CompleteRows(b, columns)
  {
    if a == [] {
      assert a + b == b;
    } else {
      assert (a + b)[1..] == a[1..] + b;
      CompleteSplit(a[1..], b, columns);
    }
  }

  lemma {:induction false} CompleteCounted(rows: seq<Row>, columns: seq<ColumnKey>, i: nat)
    requires i <= |rows|
    ensures |CompleteRows(rows[..i], columns)| == CompleteBefore(rows, columns, i)
  {
    if i > 0 {
      CompleteCounted(rows, columns, i - 1);
      assert rows[..i] == rows[..i - 1] + [rows[i - 1]];
      CompleteSplit(rows[..i - 1], [rows[i - 1]], columns);
      assert [rows[i - 1]][1..] == [];
    }
  }

  /** Dropping incomplete rows keeps every complete one, in order, and nothing else. */
  lemma DropRowKeepsComplete(rows: seq<Row>, columns: seq<ColumnKey>)
    ensures var kept := CompleteRows(rows, columns);
      && |kept| == CompleteBefore(rows, columns, |rows|)
      && forall i | 0 <= i < |rows| && Complete(rows[i], columns) ::
           CompleteBefore(rows, columns, i) < |kept| && kept[CompleteBefore(rows, columns, i)] == rows[i]
  {
    var kept := CompleteRows(rows, columns);
    CompleteCounted(rows, columns, |rows|);
    assert rows[..|rows|] == rows;
    forall i | 0 <= i < |rows| && Complete(rows[i], columns)
      ensures CompleteBefore(rows, columns, i) < |kept| && kept[CompleteBefore(rows, columns, i)] == rows[i]
    {
      assert rows == rows[..i] + rows[i..];
      CompleteSplit(rows[..i], rows[i..], columns);
      CompleteCounted(rows, columns, i);
      assert CompleteRows(rows[i..], columns)[0] == rows[i];
    }
  }

  // ----- bucketize -----

  predicate Ascending(bins: seq<real>) { forall i, j | 0 <= i < j < |bins| :: bins[i] <= bins[j] }

  /** The interval at `i` holds `x`; the last one includes its upper bound. */
  predicate InInterval(x: real, bins: seq<real>, i: nat)
    requires i + 1 < |bins|
  {
    bins[i] <= x < bins[i + 1] || (i == |bins| - 2 && x == bins[i + 1])
  }

  function BucketLabel(rt: Runtime, bins: seq<real>, labels: seq<Value>, i: nat): string
    requires i + 1 < |bins| && (labels == [] || |labels| == |bins| - 1)
  {
    if labels == [] then rt.rangeLabel(bins[i], bins[i + 1]) else Text(rt, labels[i])
  }

  lemma {:induction false} BucketSearch(rt: Runtime, x: real, bins: seq<real>, labels: seq<Value>, i: nat)
    requires labels == [] || |labels| == |bins| - 1
    ensures BucketFrom(rt, x, bins, labels, i) == Ok(Null) || exists k: nat ::
      i <= k && k + 1 < |bins| && InInterval(x, bins, k)
        && BucketFrom(rt, x, bins, labels, i) == Ok(Str(BucketLabel(rt, bins, labels, k)))
    ensures BucketFrom(rt, x, bins, labels, i) == Ok(Null) <==>
      forall k: nat | i <= k && k + 1 < |bins| :: !InInterval(x, bins, k)
    decreases |bins| - i
  {
    if i + 1 < |bins| && !InInterval(x, bins, i) { BucketSearch(rt, x, bins, labels, i + 1); }
  }

  /** A number gets the label of an interval that holds it, or none exactly when it is out of range. */
  lemma BucketIff(rt: Runtime, x: real, bins: seq<real>, labels: seq<Value>)
    requires Ascending(bins) && |bins| >= 2 && (labels == [] || |labels| == |bins| - 1)
    ensures BucketFrom(rt, x, bins, labels, 0) == Ok(Null) <==> x < bins[0] || bins[|bins| - 1] < x
    ensures bins[0] <= x <= bins[|bins| - 1] ==> exists k: nat ::
      k + 1 < |bins| && InInterval(x, bins, k)
        && BucketFrom(rt, x, bins, labels, 0) == Ok(Str(BucketLabel(rt, bins, labels, k)))
  {
    BucketSearch(rt, x, bins, labels, 0);
    if bins[0] <= x <= bins[|bins| - 1] { HoldingInterval(x, bins, |bins| - 1); }
  }

  /** Some interval below `n` holds a number between the first and the `n`th bound. */
  lemma {:induction false} HoldingInterval(x: real, bins: seq<real>, n: nat)
    requires Ascending(bins) && 1 <= n < |bins| && bins[0] <= x && (x < bins[n] || (n == |bins| - 1 && x == bins[n]))
    ensures exists k: nat :: k + 1 < |bins| && InInterval(x, bins, k)
  {
    if n == 1 || bins[n - 1] <= x {
      assert InInterval(x, bins, n - 1);
    } else {
      HoldingInterval(x, bins, n - 1);
    }
  }

  lemma {:induction false} InsertRealAscending(sorted: seq<real>, x: real)
    requires Ascending(sorted)
    ensures Ascending(InsertReal(sorted, x)) && |InsertReal(sorted, x)| == |sorted| + 1
    ensures forall y | y in InsertReal(sorted, x) :: y == x || y in sorted
  {
    if sorted != [] && x >= sorted[0] {
      InsertRealAscending(sorted[1..], x);
      var rest := InsertReal(sorted[1..], x);
      forall i | 0 <= i < |rest| ensures sorted[0] <= rest[i] { assert rest[i] in rest; }
    }
  }

  /** The boundaries a bucketize operation uses are in order. */
  lemma {:induction false} SortedRealsAscending(numbers: seq<real>)
    ensures Ascending(SortedReals(numbers)) && |SortedReals(numbers)| == |numbers|
  {
    if numbers != [] {
      SortedRealsAscending(numbers[..|numbers| - 1]);
      InsertRealAscending(SortedReals(numbers[..|numbers| - 1]), numbers[|numbers| - 1]);
    }
  }

  // ----- sort -----

  predicate NotAfter(rt: Runtime, a: Row, b: Row, columns: seq<ColumnKey>, reverse: bool) {
    if reverse then !RowBefore(rt, a, b, columns) else !RowBefore(rt, b, a, columns)
  }

  lemma SortsOrder(rt: Runtime, a: Value, b: Value, c: Value)
    ensures !SortsBefore(rt, a, b) && !SortsBefore(rt, b, c) ==> !SortsBefore(rt, a, c)
    ensures SortsBefore(rt, a, b) ==> !SortsBefore(rt, b, a)
  {
    TextOrder(Text(rt, a), Text(rt, b), Text(rt, c));
  }

  /** Not coming before is transitive, and coming before excludes the converse. */
  lemma {:induction false} RowOrder(rt: Runtime, a: Row, b: Row, c: Row, columns: seq<ColumnKey>)
    ensures !RowBefore(rt, a, b, columns) && !RowBefore(rt, b, c, columns) ==> !RowBefore(rt, a, c, columns)
    ensures RowBefore(rt, a, b, columns) ==> !RowBefore(rt, b, a, columns)
    decreases |columns|
  {
    if columns != [] {
      var x, y, z := Get(a, columns[0]), Get(b, columns[0]), Get(c, columns[0]);
      SortsOrder(rt, x, y, z);
      SortsOrder(rt, y, x, z);
      SortsOrder(rt, z, x, y);
      SortsOrder(rt, y, z, x);
      SortsOrder(rt, z, y, x);
      SortsOrder(rt, x, z, y);
      RowOrder(rt, a, b, c, columns[1..]);
    }
  }

  ghost predicate Sorted(rt: Runtime, rows: seq<Row>, columns: seq<ColumnKey>, reverse: bool) {
    forall i, j | 0 <= i < j < |rows| :: NotAfter(rt, rows[i], rows[j], columns, reverse)
  }

  lemma PrependSorted(rt: Runtime, sorted: seq<Row>, row: Row, columns: seq<ColumnKey>, reverse: bool)
    requires Sorted(rt, sorted, columns, reverse) && sorted != []
    requires if reverse then RowBefore(rt, sorted[0], row, columns) else RowBefore(rt, row, sorted[0], columns)
    ensures Sorted(rt, [row] + sorted, columns, reverse)
  {
    forall i | 0 <= i < |sorted| ensures NotAfter(rt, row, sorted[i], columns, reverse) {
      RowOrder(rt, row, sorted[0], sorted[i], columns);
      RowOrder(rt, sorted[i], sorted[0], row, columns);
      RowOrder(rt, sorted[0], row, row, columns);
      if i > 0 { assert NotAfter(rt, sorted[0], sorted[i], columns, reverse); }
    }
  }

  lemma {:induction false} InsertMembers(
    rt: Runtime, sorted: seq<Row>, row: Row, columns: seq<ColumnKey>, reverse: bool)
    ensures forall r :: r in InsertRow(rt, sorted, row, columns, reverse) <==> r == row || r in sorted
    decreases |sorted|
  {
    if sorted != [] { InsertMembers(rt, sorted[1..], row, columns, reverse); }
  }

  lemma {:induction false} InsertSorted(rt: Runtime, sorted: seq<Row>, row: Row, columns: seq<ColumnKey>, reverse: bool)
    requires Sorted(rt, sorted, columns, reverse)
    ensures Sorted(rt, InsertRow(rt, sorted, row, columns, reverse), columns, reverse)
    decreases |sorted|
  {
    if sorted != [] {
      if if reverse then RowBefore(rt, sorted[0], row, columns) else RowBefore(rt, row, sorted[0], columns) {
        PrependSorted(rt, sorted, row, columns, reverse);
      } else {
        var rest := InsertRow(rt, sorted[1..], row, columns, reverse);
        InsertSorted(rt, sorted[1..], row, columns, reverse);
        InsertMembers(rt, sorted[1..], row, columns, reverse);
        forall i | 0 <= i < |rest| ensures NotAfter(rt, sorted[0], rest[i], columns, reverse) {
          assert rest[i] in rest;
        }
      }
    }
  }

  /** Sorting orders the rows by the listed columns, up or down, and keeps each as often as it was. */
  lemma {:induction false} SortRowsSorted(rt: Runtime, rows: seq<Row>, columns: seq<ColumnKey>, reverse: bool)
    ensures Sorted(rt, SortRows(rt, rows, columns, reverse), columns, reverse)
    ensures multiset(SortRows(rt, rows, columns, reverse)) == multiset(rows)
  {
    SortKeeps(rt, rows, columns, reverse);
    if rows != [] {
      var n := |rows| - 1;
      SortRowsSorted(rt, rows[..n], columns, reverse);
      InsertSorted(rt, SortRows(rt, rows[..n], columns, reverse), rows[n], columns, reverse);
    }
  }
}
