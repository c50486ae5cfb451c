/**
 The attempt table: every stage's attempts are numbered 1..n, each links to its predecessor,
 only the newest may be live, and newest numbers never decrease along the stage order.  Kept by
 every operation on a run, whatever events arrive and wherever a rollback goes.
 */
module StageAttempts {
  import opened Values
  import opened Pipeline

  function Count(rows: seq<StageRow>, stage: Stage): nat {
    if rows == [] then 0
    else Count(rows[..|rows| - 1], stage) + (if rows[|rows| - 1].stage == stage then 1 else 0)
  }

  predicate NumberedAt(rows: seq<StageRow>, i: nat)
    requires i < |rows|
  {
    && rows[i].attempt == Count(rows[..i], rows[i].stage) + 1
    && rows[i].retryOf == Latest(rows[..i], rows[i].stage)
  }

  predicate WellNumbered(rows: seq<StageRow>) {
    forall i | 0 <= i < |rows| :: NumberedAt(rows, i)
  }

  /** Only the newest attempt of a stage may be other than rolled back. */
  predicate OnlyNewestLive(rows: seq<StageRow>) {
    forall i | 0 <= i < |rows| && rows[i].status != RolledBack :: Latest(rows, rows[i].stage) == Some(i)
  }

  predicate Attempts(rows: seq<StageRow>) {
    && WellNumbered(rows)
    && OnlyNewestLive(rows)
    && 1 <= Count(rows, RequirementAnalysis) <= Count(rows, DataSelection) <= Count(rows, DataProcessing)
  }

  // ----- the newest row -----

  lemma {:induction false} LatestIsNewest(rows: seq<StageRow>, stage: Stage)
    requires WellNumbered(rows)
    ensures Latest(rows, stage).None? <==> Count(rows, stage) == 0
    ensures Latest(rows, stage).Some? ==> rows[Latest(rows, stage).value].attempt == Count(rows, stage)
    ensures forall j | 0 <= j < |rows| && rows[j].stage == stage ::
      Latest(rows, stage).Some? && j <= Latest(rows, stage).value
  {
    if rows != [] {
      var n := |rows| - 1;
      forall i | 0 <= i < n ensures NumberedAt(rows[..n], i) {
        assert NumberedAt(rows, i) && rows[..n][..i] == rows[..i];
      }
      LatestIsNewest(rows[..n], stage);
      assert NumberedAt(rows, n);
    }
  }

  /** Adding a row of a stage makes it that stage's newest and leaves the others alone. */
  lemma LatestAppend(rows: seq<StageRow>, row: StageRow, stage: Stage)
    requires WellNumbered(rows) && row.attempt == Count(rows, row.stage) + 1
    ensures Latest(rows + [row], stage) == if row.stage == stage then Some(|rows|) else Latest(rows, stage)
    ensures Count(rows + [row], stage) == Count(rows, stage) + if row.stage == stage then 1 else 0
  {
    assert (rows + [row])[..|rows|] == rows;
    LatestIsNewest(rows, stage);
  }

  // ----- updates that keep the table's skeleton -----

  predicate SameSkeleton(a: seq<StageRow>, b: seq<StageRow>) {
    && |a| == |b|
    && forall i | 0 <= i < |a| ::
         b[i].stage == a[i].stage && b[i].attempt == a[i].attempt && b[i].retryOf == a[i].retryOf
  }

  lemma {:induction false} SkeletonQueries(a: seq<StageRow>, b: seq<StageRow>, stage: Stage)
    requires SameSkeleton(a, b)
    ensures Latest(a, stage) == Latest(b, stage) && Count(a, stage) == Count(b, stage)
  {
    if a != [] { SkeletonQueries(a[..|a| - 1], b[..|b| - 1], stage); }
  }

  lemma SkeletonKeeps(a: seq<StageRow>, b: seq<StageRow>)
    requires Attempts(a) && SameSkeleton(a, b)
    requires forall i | 0 <= i < |a| && b[i].status != RolledBack ::
      a[i].status != RolledBack || Latest(a, a[i].stage) == Some(i)
    ensures Attempts(b)
  {
    forall i | 0 <= i < |b| ensures NumberedAt(b, i) {
      assert NumberedAt(a, i);
      SkeletonQueries(a[..i], b[..i], a[i].stage);
    }
    forall stage ensures Latest(a, stage) == Latest(b, stage) && Count(a, stage) == Count(b, stage) {
      SkeletonQueries(a, b, stage);
    }
  }

  /** Changing one row's status, output or approval. */
  lemma UpdateKeeps(rows: seq<StageRow>, p: nat, row: StageRow)
    requires Attempts(rows) && p < |rows|
    requires row.stage == rows[p].stage && row.attempt == rows[p].attempt && row.retryOf == rows[p].retryOf
    requires row.status == rows[p].status || Latest(rows, rows[p].stage) == Some(p)
    ensures Attempts(rows[p := row])
    ensures forall stage :: Latest(rows[p := row], stage) == Latest(rows, stage)
    ensures forall stage :: Count(rows[p := row], stage) == Count(rows, stage)
  {
    SkeletonKeeps(rows, rows[p := row]);
    forall stage
      ensures Latest(rows[p := row], stage) == Latest(rows, stage) && Count(rows[p := row], stage) == Count(rows, stage)
    {
      SkeletonQueries(rows, rows[p := row], stage);
    }
  }

  // ----- re-opening -----

  lemma MarkKeeps(rows: seq<StageRow>, target: Stage)
    requires Attempts(rows)
    ensures Attempts(Mark(rows, target)) && SameSkeleton(rows, Mark(rows, target))
    ensures forall stage ::
      Latest(Mark(rows, target), stage) == Latest(rows, stage) && Count(Mark(rows, target), stage) == Count(rows, stage)
  {
    var marked := Mark(rows, target);
    SkeletonKeeps(rows, marked);
    forall stage ensures Latest(marked, stage) == Latest(rows, stage) && Count(marked, stage) == Count(rows, stage) {
      SkeletonQueries(rows, marked, stage);
    }
  }

  /** Numbering, and at most the newest live: what adding attempts one by one keeps. */
  predicate Table(rows: seq<StageRow>) { WellNumbered(rows) && OnlyNewestLive(rows) }

  predicate Retired(rows: seq<StageRow>, stage: Stage) {
    forall i | 0 <= i < |rows| && rows[i].stage == stage :: rows[i].status == RolledBack
  }

  lemma AppendKeeps(rows: seq<StageRow>, stage: Stage)
    requires Table(rows) && Retired(rows, stage)
    ensures Table(rows + [NewAttempt(rows, stage)])
    ensures NewAttempt(rows, stage).attempt == Count(rows, stage) + 1
  {
    var row := NewAttempt(rows, stage);
    var more := rows + [row];
    LatestIsNewest(rows, stage);
    AppendNumbers(rows, row);
    forall i | 0 <= i < |more| && more[i].status != RolledBack ensures Latest(more, more[i].stage) == Some(i) {
      LatestAppend(rows, row, more[i].stage);
      assert i < |rows| ==> more[i] == rows[i];
    }
  }

  lemma AppendNumbers(rows: seq<StageRow>, row: StageRow)
    requires WellNumbered(rows)
    requires row.attempt == Count(rows, row.stage) + 1 && row.retryOf == Latest(rows, row.stage)
    ensures WellNumbered(rows + [row])
  {
    var more := rows + [row];
    forall i | 0 <= i < |more| ensures NumberedAt(more, i) {
      if i < |rows| {
        assert NumberedAt(rows, i) && more[..i] == rows[..i];
      } else {
        assert more[..i] == rows;
      }
    }
  }

  lemma StageAt(stage: Stage)
    ensures Index(stage) < |STAGE_ORDER| == 3 && STAGE_ORDER[Index(stage)] == stage
    ensures forall i | 0 <= i < 3 :: Index(STAGE_ORDER[i]) == i
  {}

  /** The newest row of one stage once the first `k` stages from `target` have a new attempt. */
  predicate GrownAt(base: seq<StageRow>, target: Stage, k: nat, rows: seq<StageRow>, stage: Stage) {
    if Index(target) <= Index(stage) < Index(target) + k then
      Latest(rows, stage) == Some(|base| + Index(stage) - Index(target)) && Count(rows, stage) == Count(base, stage) + 1
    else
      Latest(rows, stage) == Latest(base, stage) && Count(rows, stage) == Count(base, stage)
  }

  function Added(base: seq<StageRow>, target: Stage, k: nat): seq<StageRow>
    requires Index(target) + k <= 3
  {
    base + NewAttempts(base, STAGE_ORDER[Index(target)..Index(target) + k])
  }

  lemma AddedNext(base: seq<StageRow>, target: Stage, k: nat)
    requires Index(target) + k < 3
    ensures Added(base, target, k + 1) == Added(base, target, k) + [NewAttempt(base, STAGE_ORDER[Index(target) + k])]
  {
    var codes := STAGE_ORDER[Index(target)..Index(target) + k];
    var stage := STAGE_ORDER[Index(target) + k];
    assert STAGE_ORDER[Index(target)..Index(target) + k + 1] == codes + [stage];
    assert NewAttempts(base, codes + [stage]) == NewAttempts(base, codes) + [NewAttempt(base, stage)];
  }

  lemma RetiredStays(base: seq<StageRow>, target: Stage, k: nat, stage: Stage)
    requires Index(target) + k <= 3 && Retired(base, stage)
    requires !(Index(target) <= Index(stage) < Index(target) + k)
    ensures Retired(Added(base, target, k), stage)
  {
    var rows := Added(base, target, k);
    var codes := STAGE_ORDER[Index(target)..Index(target) + k];
    StageAt(stage);
    assert forall j | 0 <= j < k ::
      Index(codes[j]) == Index(target) + j && NewAttempts(base, codes)[j].stage == codes[j];
    forall i | |base| <= i < |rows| ensures rows[i].stage != stage {
      assert rows[i] == NewAttempts(base, codes)[i - |base|];
    }
  }

  lemma GrowOne(base: seq<StageRow>, target: Stage, k: nat, n: nat)
    requires n == k + 1 && Index(target) + k < 3 && Table(Added(base, target, k))
    requires forall stage :: GrownAt(base, target, k, Added(base, target, k), stage)
    requires Retired(base, STAGE_ORDER[Index(target) + k])
    ensures Table(Added(base, target, n))
    ensures forall stage :: GrownAt(base, target, n, Added(base, target, n), stage)
  {
    var rows, stage := Added(base, target, k), STAGE_ORDER[Index(target) + k];
    StageAt(stage);
    assert NewAttempt(rows, stage) == NewAttempt(base, stage) by { assert GrownAt(base, target, k, rows, stage); }
    RetiredStays(base, target, k, stage);
    AppendKeeps(rows, stage);
    AddedNext(base, target, k);
    GrowStages(base, target, k, n, rows, NewAttempt(rows, stage));
  }

  lemma GrowStages(base: seq<StageRow>, target: Stage, k: nat, n: nat, rows: seq<StageRow>, row: StageRow)
    requires n == k + 1 && Index(target) + k < 3 && |rows| == |base| + k && Index(row.stage) == Index(target) + k
    requires WellNumbered(rows) && row.attempt == Count(rows, row.stage) + 1
    requires forall stage :: GrownAt(base, target, k, rows, stage)
    ensures var more := rows + [row]; forall stage :: GrownAt(base, target, n, more, stage)
  {
    var more := rows + [row];
    forall stage ensures GrownAt(base, target, n, more, stage) {
      assert GrownAt(base, target, k, rows, stage);
      LatestAppend(rows, row, stage);
      GrowStage(base, target, k, rows, row, stage);
    }
  }

  lemma GrowStage(base: seq<StageRow>, target: Stage, k: nat, rows: seq<StageRow>, row: StageRow, other: Stage)
    requires Index(target) + k < 3 && |rows| == |base| + k && GrownAt(base, target, k, rows, other)
    requires Index(row.stage) == Index(target) + k
    requires Latest(rows + [row], other) == if row.stage == other then Some(|rows|) else Latest(rows, other)
    requires Count(rows + [row], other) == Count(rows, other) + if row.stage == other then 1 else 0
    ensures GrownAt(base, target, k + 1, rows + [row], other)
  {
    assert row.stage == other <==> Index(other) == Index(target) + k;
  }

  lemma {:induction false} GrowAll(base: seq<StageRow>, target: Stage, k: nat)
    requires Index(target) + k <= 3 && Table(base)
    requires forall stage | Index(stage) >= Index(target) :: Retired(base, stage)
    ensures Table(Added(base, target, k))
    ensures forall stage :: GrownAt(base, target, k, Added(base, target, k), stage)
  {
    if k == 0 {
      assert Added(base, target, 0) == base;
    } else {
      GrowAll(base, target, k - 1);
      StageAt(STAGE_ORDER[Index(target) + k - 1]);
      GrowOne(base, target, k - 1, k);
    }
  }

  lemma AddedAll(base: seq<StageRow>, target: Stage)
    ensures Added(base, target, 3 - Index(target)) == base + NewAttempts(base, STAGE_ORDER[Index(target)..])
  {
    assert STAGE_ORDER[Index(target)..3] == STAGE_ORDER[Index(target)..];
  }

  /** The newest row of a stage after re-opening from `target`. */
  ghost predicate Reopened(rows: seq<StageRow>, target: Stage, after: seq<StageRow>, stage: Stage) {
    if Index(stage) < Index(target) then
      && Latest(after, stage) == Latest(rows, stage) && Count(after, stage) == Count(rows, stage)
      && (Latest(rows, stage).Some? ==> after[Latest(rows, stage).value] == rows[Latest(rows, stage).value])
    else
      var q := |rows| + Index(stage) - Index(target);
      && Latest(rows, stage).Some? && q < |after|
      && Latest(after, stage) == Some(q) && Count(after, stage) == Count(rows, stage) + 1
      && after[q] == StageRow(stage, Count(rows, stage) + 1, Pending, Latest(rows, stage),
                              rows[Latest(rows, stage).value].approved, map[])
  }

  /** What re-opening leaves in the newest row of a stage before the target, and in the new rows. */
  ghost predicate Rows(rows: seq<StageRow>, target: Stage, after: seq<StageRow>, stage: Stage)
    requires Latest(rows, stage).Some? && |rows| <= |after|
  {
    var p := Latest(rows, stage).value;
    if Index(stage) < Index(target) then after[p] == rows[p]
    else
      var q := |rows| + Index(stage) - Index(target);
      q < |after| && after[q] == StageRow(stage, rows[p].attempt + 1, Pending, Some(p), rows[p].approved, map[])
  }

  lemma ReopenedRows(rows: seq<StageRow>, target: Stage, stage: Stage)
    requires Latest(rows, stage).Some? && Latest(Mark(rows, target), stage) == Latest(rows, stage)
    ensures |ReopenRows(rows, target)| >= |rows| && Rows(rows, target, ReopenRows(rows, target), stage)
  {
    if Index(stage) >= Index(target) {
      StageAt(stage);
      var marked, i := Mark(rows, target), Index(stage) - Index(target);
      assert STAGE_ORDER[Index(target)..][i] == stage;
      assert ReopenRows(rows, target)[|marked| + i] == NewAttempt(marked, stage);
    }
  }

  /** Re-opening, from where the newest rows are and what they hold. */
  lemma ReopenStage(rows: seq<StageRow>, target: Stage, base: seq<StageRow>, after: seq<StageRow>, stage: Stage)
    requires |base| == |rows| <= |after| && GrownAt(base, target, 3 - Index(target), after, stage)
    requires Latest(base, stage) == Latest(rows, stage) && Count(base, stage) == Count(rows, stage)
    requires Latest(rows, stage).Some? && rows[Latest(rows, stage).value].attempt == Count(rows, stage)
    requires Rows(rows, target, after, stage)
    ensures Reopened(rows, target, after, stage)
  {
    assert Index(stage) < 3;
  }

  lemma ReopenGrows(rows: seq<StageRow>, target: Stage, marked: seq<StageRow>, after: seq<StageRow>, n: nat)
    requires Attempts(rows) && marked == Mark(rows, target) && after == ReopenRows(rows, target)
    requires n == 3 - Index(target)
    ensures Table(after) && forall stage :: GrownAt(marked, target, n, after, stage)
  {
    MarkKeeps(rows, target);
    GrowAll(marked, target, n);
    AddedAll(marked, target);
  }

  lemma ReopenKeeps(rows: seq<StageRow>, target: Stage)
    requires Attempts(rows)
    ensures Attempts(ReopenRows(rows, target))
    ensures forall stage :: Reopened(rows, target, ReopenRows(rows, target), stage)
  {
    var marked, after, n := Mark(rows, target), ReopenRows(rows, target), 3 - Index(target);
    ReopenGrows(rows, target, marked, after, n);
    MarkKeeps(rows, target);
    forall stage ensures Reopened(rows, target, after, stage) {
      assert GrownAt(marked, target, n, after, stage);
      NewestNumber(rows, stage);
      ReopenedRows(rows, target, stage);
      ReopenStage(rows, target, marked, after, stage);
    }
    CountsOrdered(rows, target, after);
  }

  lemma NewestNumber(rows: seq<StageRow>, stage: Stage)
    requires Attempts(rows)
    ensures Latest(rows, stage).Some? && rows[Latest(rows, stage).value].attempt == Count(rows, stage)
  {
    LatestIsNewest(rows, stage);
  }

  lemma CountsOrdered(rows: seq<StageRow>, target: Stage, after: seq<StageRow>)
    requires Attempts(rows) && Table(after) && forall stage :: Reopened(rows, target, after, stage)
    ensures Attempts(after)
  {
    assert Reopened(rows, target, after, RequirementAnalysis);
    assert Reopened(rows, target, after, DataSelection);
    assert Reopened(rows, target, after, DataProcessing);
  }

  /** Re-opening only appends; what existing rows hold stays. */
  lemma ReopenAppends(rows: seq<StageRow>, target: Stage)
    ensures |ReopenRows(rows, target)| == |rows| + 3 - Index(target)
    ensures forall i | 0 <= i < |rows| ::
      ReopenRows(rows, target)[i].output == rows[i].output && ReopenRows(rows, target)[i].approved == rows[i].approved
  {}

  lemma CreatedAttempts(execution: nat)
    ensures Attempts(Created(execution).rows)
    ensures forall stage ::
      Latest(Created(execution).rows, stage) == Some(Index(stage)) && Count(Created(execution).rows, stage) == 1
  {
    var rows := Created(execution).rows;
    GrowAll([], RequirementAnalysis, 3);
    AddedAll([], RequirementAnalysis);
    assert STAGE_ORDER[0..] == STAGE_ORDER;
    assert Added([], RequirementAnalysis, 3) == rows;
    forall stage ensures Latest(rows, stage) == Some(Index(stage)) && Count(rows, stage) == 1 {
      StageAt(stage);
      assert GrownAt([], RequirementAnalysis, 3, rows, stage);
    }
  }

  // ----- every operation -----

  lemma ReviewKeepsAttempts(s: RunState, r: ReviewRequest, digest: Output -> string, scheduled: bool)
    requires Attempts(s.rows)
    ensures Attempts(Reviewed(s, r, digest, scheduled).rows)
  {
    forall target ensures Attempts(ReopenRows(s.rows, target)) { ReopenKeeps(s.rows, target); }
    var reviewed := ReviewedStage(s, r);
    if reviewed.Some? && !reviewed.value.DataProcessing? && Latest(s.rows, reviewed.value).Some? {
      var p := Latest(s.rows, reviewed.value).value;
      UpdateKeeps(s.rows, p, s.rows[p].(output := ApprovedRequirement(s.rows[p].output, r.deliveryChannel)));
      var q := LatestWith(s.rows, DataProcessing, Pending);
      if q.Some? {
        var plan := SnapshotPlan(s.rows[p].output);
        UpdateKeeps(s.rows, q.value, s.rows[q.value].(approved := Some(Approval(p, plan, digest(plan)))));
      }
    }
  }

  lemma EventKeepsAttempts(s: RunState, e: Event)
    requires Attempts(s.rows)
    ensures Attempts(Persisted(s, e).rows)
  {
    var p := EventRow(s, e);
    if p.Some? {
      var row := s.rows[p.value].(status := e.stageStatus.value);
      UpdateKeeps(s.rows, p.value, row);
      UpdateKeeps(s.rows, p.value, row.(output := e.result));
    }
  }

  lemma RecoveryKeepsAttempts(s: RunState, stale: bool, limit: int, scheduled: bool)
    requires Attempts(s.rows)
    ensures Attempts(WatchdogRecovered(s, stale, limit, scheduled).rows)
    ensures Attempts(AdminRecovered(s, scheduled).rows)
  {
    forall target ensures Attempts(ReopenRows(s.rows, target)) { ReopenKeeps(s.rows, target); }
    var p := StaleRow(s, stale);
    if p.Some? { UpdateKeeps(s.rows, p.value, s.rows[p.value].(status := Broken)); }
  }
}
