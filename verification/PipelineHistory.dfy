/**
 Whole runs: a history of reviews, recoveries and events applied to a new run, with the events
 of the current execution following the executor's protocol (app/domains/pipeline/executor.py).
 */
module PipelineHistory {
  import opened Values
  import opened Pipeline
  import opened StageAttempts

  /** How far the current execution has got. */
  datatype Phase = Scheduled | Prepared(stage: Stage) | Started(stage: Stage) | Idle

  datatype World = World(run: RunState, phase: Phase)

  datatype Config = Config(digest: Output -> string, limit: int)

  datatype Action =
    | DispatchNext
    | Progress
    | Finish(result: Output)
    | Fail(code: Option<FailureCode>, result: Output)
    | Foreign(event: Event)
    | AgentLog(execution: nat, row: Option<nat>, place: Place)
    | Review(request: ReviewRequest, scheduled: bool)
    | Admin(scheduled: bool)
    | Watchdog(stale: bool, scheduled: bool)

  /** Reviews and recoveries either keep the execution or start the next one. */
  function Control(w: World, run: RunState, scheduled: bool): World {
    World(run, if run.execution == w.run.execution then w.phase else if scheduled then Scheduled else Idle)
  }

  function StageEvent(
    w: World, stage: Stage, status: RunStatus, stageStatus: StageStatus, result: Output, back: Option<Stage>): RunState
  {
    Persisted(w.run, Event(w.run.execution, status, At(stage), Some(stageStatus), result, back))
  }

  function Step(c: Config, w: World, a: Action): World {
    match a
    case DispatchNext =>
      (match NextPending(w.run)
       case None => World(Persisted(w.run, Event(w.run.execution, Failed, Dispatch, None, map[], None)), Idle)
       case Some(p) =>
         var stage := w.run.rows[p].stage;
         World(StageEvent(w, stage, Running, Pending, map[], None), Prepared(stage)))
    case Progress =>
      if w.phase.Prepared? || w.phase.Started? then
        World(StageEvent(w, w.phase.stage, Running, InProgress, map[], None), Started(w.phase.stage))
      else w
    case Finish(result) =>
      if w.phase.Started? then
        World(StageEvent(w, w.phase.stage, Gate(w.phase.stage), Done, result, None), Idle)
      else w
    case Fail(code, result) =>
      if w.phase.Started? then
        World(StageEvent(w, w.phase.stage, Failed, Broken, result, Some(FailureRollback(w.phase.stage, code))), Idle)
      else w
    case Foreign(e) => w.(run := Persisted(w.run, e))
    case AgentLog(execution, row, place) => w.(run := Logged(w.run, execution, row, place))
    case Review(r, scheduled) => Control(w, Reviewed(w.run, r, c.digest, scheduled), scheduled)
    case Admin(scheduled) => Control(w, AdminRecovered(w.run, scheduled), scheduled)
    case Watchdog(stale, scheduled) => Control(w, WatchdogRecovered(w.run, stale, c.limit, scheduled), scheduled)
  }

  function Initial(execution: nat): World { World(Created(execution), Scheduled) }

  function After(c: Config, w: World, history: seq<Action>): World
    decreases |history|
  {
    if history == [] then w else After(c, Step(c, w, history[0]), history[1..])
  }

  // ----- attempts, with no assumption about events or rollbacks -----

  lemma StepKeepsAttempts(c: Config, w: World, a: Action)
    requires Attempts(w.run.rows)
    ensures Attempts(Step(c, w, a).run.rows)
  {
    forall e ensures Attempts(Persisted(w.run, e).rows) { EventKeepsAttempts(w.run, e); }
    match a {
      case Review(r, scheduled) => ReviewKeepsAttempts(w.run, r, c.digest, scheduled);
      case Admin(scheduled) => RecoveryKeepsAttempts(w.run, false, c.limit, scheduled);
      case Watchdog(stale, scheduled) => RecoveryKeepsAttempts(w.run, stale, c.limit, scheduled);
      case _ =>
    }
  }

  lemma {:induction false} HistoryKeepsAttempts(c: Config, w: World, history: seq<Action>)
    requires Attempts(w.run.rows)
    ensures Attempts(After(c, w, history).run.rows)
    decreases |history|
  {
    if history != [] {
      StepKeepsAttempts(c, w, history[0]);
      HistoryKeepsAttempts(c, Step(c, w, history[0]), history[1..]);
    }
  }

  /** In every state of every run, whatever happens, the attempt table is in order. */
  lemma AttemptsAlways(c: Config, execution: nat, history: seq<Action>)
    ensures Attempts(After(c, Initial(execution), history).run.rows)
  {
    CreatedAttempts(execution);
    HistoryKeepsAttempts(c, Initial(execution), history);
  }

  // ----- the protocol -----

  /** The failure codes a stage can end with; no code is an exception that carries none. */
  predicate Emits(stage: Stage, code: Option<FailureCode>) {
    code.None? || code.value.AgentRuntimeUnavailable? ||
    match stage
    case RequirementAnalysis => code.value.RequiredKeyMissing?
    case DataSelection =>
      code.value.SelectionRuleInvalid? || code.value.InsufficientData? || code.value.PrivacyThresholdNotMet?
      || code.value.SchemaInvalid?
    case DataProcessing =>
      code.value.ProcessingRuleInvalid? || code.value.InsufficientData? || code.value.PrivacyThresholdNotMet?
      || code.value.FormatInvalid?
  }

  /** What a stage emits never sends the run to a later stage. */
  lemma EmittedGoesBack(stage: Stage, code: Option<FailureCode>)
    requires Emits(stage, code)
    ensures Index(FailureRollback(stage, code)) <= Index(stage)
  {}

  /** What one execution may emit, and events of other executions. */
  predicate Enabled(w: World, a: Action) {
    match a
    case DispatchNext => w.phase.Scheduled?
    case Progress => w.phase.Prepared? || w.phase.Started?
    case Finish(_) => w.phase.Started?
    case Fail(code, _) => w.phase.Started? && Emits(w.phase.stage, code)
    case Foreign(e) => e.execution != w.run.execution
    case _ => true
  }

  /** A rejection does not send a run to processing whose plan is not approved. */
  predicate SafeRejection(gate: Stage, code: Option<FailureCode>) {
    RejectTarget(gate, code).DataProcessing? ==> gate.DataProcessing?
  }

  /** A review rejects safely; a retry or an approval is always safe. */
  predicate SafeReview(w: World, a: Action) {
    match a
    case Review(r, _) =>
      (match ReviewedStage(w.run, r)
       case None => true
       case Some(stage) => IsRetry(w.run, r) || r.approved || SafeRejection(stage, r.code))
    case _ => true
  }

  predicate Legal(c: Config, w: World, history: seq<Action>)
    decreases |history|
  {
    history == [] ||
    (Enabled(w, history[0]) && SafeReview(w, history[0]) && Legal(c, Step(c, w, history[0]), history[1..]))
  }

  // ----- the invariant -----

  /** The newest row of a stage. */
  function Newest(rows: seq<StageRow>, stage: Stage): StageRow
    requires Attempts(rows)
  {
    LatestIsNewest(rows, stage);
    rows[Latest(rows, stage).value]
  }

  /** Newest attempts read Done*, the front stage, Pending*. */
  predicate Shape(rows: seq<StageRow>, front: Stage)
    requires Attempts(rows)
  {
    && (Index(front) > 0 ==> Newest(rows, RequirementAnalysis).status == Done)
    && (Index(front) > 1 ==> Newest(rows, DataSelection).status == Done)
    && (Index(front) < 1 ==> Newest(rows, DataSelection).status == Pending)
    && (Index(front) < 2 ==> Newest(rows, DataProcessing).status == Pending)
  }

  /** The approval carried by a processing attempt is of this selection attempt and its plan. */
  predicate ApprovesRow(c: Config, rows: seq<StageRow>, approved: Option<Approval>, p: nat) {
    && approved.Some? && approved.value.stageRun == p && p < |rows|
    && approved.value.plan == SnapshotPlan(rows[p].output)
    && PlanVerifies(c.digest, approved.value)
  }

  /** In processing, the newest selection is the approved one; before it, no approval of it exists. */
  predicate Linked(c: Config, rows: seq<StageRow>, front: Stage)
    requires Attempts(rows)
  {
    var approved := Newest(rows, DataProcessing).approved;
    && Latest(rows, DataSelection).Some?
    && if front.DataProcessing? then ApprovesRow(c, rows, approved, Latest(rows, DataSelection).value)
       else approved.Some? ==> approved.value.stageRun != Latest(rows, DataSelection).value
  }

  predicate KnownApprovals(rows: seq<StageRow>) {
    forall row | row in rows && row.approved.Some? :: row.approved.value.stageRun < |rows|
  }

  /** The run's own fields agree with the front stage and the execution's progress. */
  predicate FieldsAgree(s: RunState, phase: Phase, front: Stage)
    requires Attempts(s.rows)
  {
    && (s.place.At? ==> s.place.stage == front)
    && (s.rollbackTo.Some? ==> Index(s.rollbackTo.value) <= Index(front))
    && (GateStage(s.status).Some? ==> GateStage(s.status).value == front && Newest(s.rows, front).status == Done)
    && match phase
       case Idle => true
       case Scheduled =>
         && Newest(s.rows, front).status == Pending && s.place == At(front)
         && (s.rollbackTo.Some? ==> s.rollbackTo.value == front)
       case Prepared(stage) => stage == front && s.place == At(front)
       case Started(stage) => stage == front && s.place == At(front)
  }

  predicate TableInv(c: Config, rows: seq<StageRow>, front: Stage) {
    Attempts(rows) && Shape(rows, front) && Linked(c, rows, front) && KnownApprovals(rows)
  }

  predicate InvAt(c: Config, w: World, front: Stage) {
    && TableInv(c, w.run.rows, front)
    && w.run.execution < w.run.nextExecution
    && FieldsAgree(w.run, w.phase, front)
  }

  ghost predicate Inv(c: Config, w: World) { exists front :: InvAt(c, w, front) }

  lemma InitialInv(c: Config, execution: nat)
    ensures InvAt(c, Initial(execution), RequirementAnalysis)
  {
    CreatedAttempts(execution);
  }

  // ----- one step at a time -----

  /** Where the table allows the run to restart: everything before is done, and processing is approved. */
  predicate Restartable(rows: seq<StageRow>, front: Stage, target: Stage)
    requires Attempts(rows)
  {
    Index(target) <= Index(front)
    || (front.RequirementAnalysis? && target.DataSelection? && Newest(rows, RequirementAnalysis).status == Done)
  }

  /** The newest row of a stage after re-opening: kept before the target, a new attempt from it on. */
  lemma ReopenedNewest(rows: seq<StageRow>, target: Stage, stage: Stage)
    requires Attempts(rows)
    ensures Attempts(ReopenRows(rows, target))
    ensures var before, after := Newest(rows, stage), Newest(ReopenRows(rows, target), stage);
      if Index(stage) < Index(target) then
        after == before && Latest(ReopenRows(rows, target), stage) == Latest(rows, stage)
      else
        && after.status == Pending && after.approved == before.approved && Latest(ReopenRows(rows, target), stage).Some?
        && Latest(ReopenRows(rows, target), stage).value >= |rows|
  {
    ReopenKeeps(rows, target);
    NewestNumber(rows, stage);
    NewestNumber(ReopenRows(rows, target), stage);
    NewestReopened(rows, target, ReopenRows(rows, target), stage);
  }

  lemma NewestReopened(rows: seq<StageRow>, target: Stage, after: seq<StageRow>, stage: Stage)
    requires Reopened(rows, target, after, stage) && Latest(rows, stage).Some?
    ensures Latest(after, stage).Some?
    ensures var p, q := Latest(rows, stage).value, Latest(after, stage).value;
      if Index(stage) < Index(target) then q == p && after[q] == rows[p]
      else q >= |rows| && after[q].status == Pending && after[q].approved == rows[p].approved
  {}

  /** Re-opening from such a stage moves the front there. */
  lemma ReopenInv(c: Config, w: World, front: Stage, target: Stage)
    requires InvAt(c, w, front) && Restartable(w.run.rows, front, target)
    ensures TableInv(c, ReopenRows(w.run.rows, target), target)
    ensures Newest(ReopenRows(w.run.rows, target), target).status == Pending
  {
    var before := w.run.rows;
    ReopenAppends(before, target);
    ReopenedNewest(before, target, RequirementAnalysis);
    ReopenedNewest(before, target, DataSelection);
    ReopenedNewest(before, target, DataProcessing);
    LatestIsNewest(before, DataSelection);
    LatestIsNewest(before, DataProcessing);
    ReopenApprovals(before, target);
  }

  lemma ReopenApprovals(rows: seq<StageRow>, target: Stage)
    requires KnownApprovals(rows)
    ensures KnownApprovals(ReopenRows(rows, target))
  {
    var after := ReopenRows(rows, target);
    ReopenAppends(rows, target);
    var marked, codes := Mark(rows, target), STAGE_ORDER[Index(target)..];
    forall row | row in after && row.approved.Some? ensures row.approved.value.stageRun < |after| {
      var i :| 0 <= i < |after| && after[i] == row;
      if i < |rows| {
        assert rows[i] in rows;
      } else {
        var p := Latest(marked, codes[i - |rows|]);
        assert row == NewAttempt(marked, codes[i - |rows|]);
        assert p.Some? && rows[p.value] in rows;
      }
    }
  }

  /** Queueing a pending front stage and redispatching it. */
  lemma RequeuedInv(c: Config, w: World, run: RunState, front: Stage, scheduled: bool)
    requires TableInv(c, run.rows, front) && Newest(run.rows, front).status == Pending
    requires run.status == Queued && run.place == At(front)
    requires run.rollbackTo.Some? ==> run.rollbackTo.value == front
    requires run.execution == w.run.execution < w.run.nextExecution == run.nextExecution
    ensures InvAt(c, Control(w, Redispatched(run, scheduled), scheduled), front)
  {
    assert Redispatched(run, scheduled).rows == run.rows;
  }

  lemma RollBackInv(c: Config, w: World, front: Stage, target: Stage, scheduled: bool)
    requires InvAt(c, w, front) && Restartable(w.run.rows, front, target)
    ensures InvAt(c, Control(w, RollBack(w.run, target, scheduled), scheduled), target)
  {
    ReopenInv(c, w, front, target);
    var run :=
      w.run.(rows := ReopenRows(w.run.rows, target), status := Queued, place := At(target), rollbackTo := Some(target));
    RequeuedInv(c, w, run, target, scheduled);
  }

  lemma ApprovalsUpdated(rows: seq<StageRow>, p: nat, row: StageRow)
    requires KnownApprovals(rows) && p < |rows| && (row.approved.Some? ==> row.approved.value.stageRun < |rows|)
    ensures KnownApprovals(rows[p := row])
  {
    forall r | r in rows[p := row] && r.approved.Some? ensures r.approved.value.stageRun < |rows| {
      assert r == row || r in rows;
    }
  }

  predicate SameAttempt(a: StageRow, b: StageRow) {
    a.stage == b.stage && a.attempt == b.attempt && a.retryOf == b.retryOf && a.approved == b.approved
  }

  /** Changing the newest row of one stage leaves the newest rows of the others. */
  lemma NewestUpdated(rows: seq<StageRow>, p: nat, row: StageRow, stage: Stage)
    requires Attempts(rows) && p < |rows| && Latest(rows, rows[p].stage) == Some(p) && SameAttempt(row, rows[p])
    ensures Attempts(rows[p := row]) && Latest(rows[p := row], stage) == Latest(rows, stage)
    ensures Newest(rows[p := row], stage) == if stage == row.stage then row else Newest(rows, stage)
  {
    UpdateKeeps(rows, p, row);
    LatestIsNewest(rows, stage);
  }

  /** Changing the status and output of the newest row of the front stage. */
  lemma FrontUpdated(c: Config, rows: seq<StageRow>, p: nat, row: StageRow, front: Stage)
    requires TableInv(c, rows, front) && Latest(rows, front) == Some(p) && SameAttempt(row, rows[p])
    ensures TableInv(c, rows[p := row], front) && Newest(rows[p := row], front) == row
  {
    NewestUpdated(rows, p, row, RequirementAnalysis);
    NewestUpdated(rows, p, row, DataSelection);
    NewestUpdated(rows, p, row, DataProcessing);
    assert rows[p] in rows;
    ApprovalsUpdated(rows, p, row);
  }

  /** An event about the newest row of the front stage. */
  lemma FrontEventInv(c: Config, w: World, front: Stage, status: StageStatus, result: Output, run: RunState)
    requires InvAt(c, w, front)
    requires run.rows
         == EventRows(w.run, Event(w.run.execution, run.status, At(front), Some(status), result, run.rollbackTo))
    ensures TableInv(c, run.rows, front) && Newest(run.rows, front).status == status
  {
    LatestIsNewest(w.run.rows, front);
    var p := Latest(w.run.rows, front).value;
    FrontUpdated(c, w.run.rows, p, run.rows[p], front);
  }

  /** An event of the execution about its stage; a failure goes back no further than that stage. */
  predicate StageAction(w: World, a: Action) {
    match a
    case Progress => w.phase.Prepared? || w.phase.Started?
    case Finish(_) => w.phase.Started?
    case Fail(code, _) => w.phase.Started? && Index(FailureRollback(w.phase.stage, code)) <= Index(w.phase.stage)
    case _ => false
  }

  /** Once the table is in order, so are the fields an event of the front stage sets. */
  lemma EventFields(c: Config, w: World, front: Stage, a: Action)
    requires StageAction(w, a) && w.phase.stage == front
    requires w.run.execution < w.run.nextExecution && Attempts(Step(c, w, a).run.rows)
    requires a.Finish? ==> Newest(Step(c, w, a).run.rows, front).status == Done
    ensures FieldsAgree(Step(c, w, a).run, Step(c, w, a).phase, front)
    ensures Step(c, w, a).run.execution < Step(c, w, a).run.nextExecution
  {}

  lemma EventInv(c: Config, w: World, front: Stage, a: Action)
    requires InvAt(c, w, front) && StageAction(w, a)
    ensures InvAt(c, Step(c, w, a), front)
  {
    var status, result := if a.Progress? then InProgress else if a.Finish? then Done else Broken,
                          if a.Progress? then map[] else a.result;
    FrontEventInv(c, w, front, status, result, Step(c, w, a).run);
    EventFields(c, w, front, a);
  }

  // ----- dispatch -----

  lemma {:induction false} PendingFound(rows: seq<StageRow>, stage: Stage)
    ensures FirstPending(rows, stage).None? ==>
      forall i | 0 <= i < |rows| :: !(rows[i].stage == stage && rows[i].status == Pending)
    ensures forall status :: LatestWith(rows, stage, status).None? ==>
      forall i | 0 <= i < |rows| :: !(rows[i].stage == stage && rows[i].status == status)
    ensures LatestRunning(rows).None? ==> forall i | 0 <= i < |rows| :: rows[i].status != InProgress
  {
    if rows != [] { PendingFound(rows[..|rows| - 1], stage); }
  }

  /** A live row is the newest of its stage, so a query for a live status returns the newest or nothing. */
  lemma LiveQueries(rows: seq<StageRow>, stage: Stage)
    requires Attempts(rows)
    ensures Latest(rows, stage).Some?
    ensures FirstPending(rows, stage) == if Newest(rows, stage).status == Pending then Latest(rows, stage) else None
    ensures LatestWith(rows, stage, Pending)
         == if Newest(rows, stage).status == Pending then Latest(rows, stage) else None
    ensures LatestWith(rows, stage, Done) == if Newest(rows, stage).status == Done then Latest(rows, stage) else None
  {
    LatestIsNewest(rows, stage);
    PendingFound(rows, stage);
    assert Latest(rows, stage).value < |rows|;
  }

  lemma RunningIsFront(c: Config, w: World, front: Stage)
    requires InvAt(c, w, front)
    ensures LatestRunning(w.run.rows).Some? ==>
      w.run.rows[LatestRunning(w.run.rows).value].stage == front
        && LatestRunning(w.run.rows) == Latest(w.run.rows, front)
    ensures LatestRunning(w.run.rows).None? ==> Newest(w.run.rows, front).status != InProgress
  {
    var rows := w.run.rows;
    LatestIsNewest(rows, front);
    PendingFound(rows, front);
    var p := LatestRunning(rows);
    if p.Some? {
      assert Latest(rows, rows[p.value].stage) == p;
    }
  }

  /** A scheduled execution always finds its stage: the run's current one, and its payload builds. */
  lemma DispatchFindsCurrent(c: Config, w: World, front: Stage)
    requires InvAt(c, w, front) && w.phase.Scheduled?
    ensures w.run.place == At(front)
    ensures Latest(w.run.rows, front).Some? && NextPending(w.run) == Latest(w.run.rows, front)
    ensures PayloadBuilds(w.run, NextPending(w.run).value, c.digest)
  {
    LiveQueries(w.run.rows, RequirementAnalysis);
    LiveQueries(w.run.rows, DataSelection);
    LiveQueries(w.run.rows, DataProcessing);
    RunningIsFront(c, w, front);
  }

  lemma DispatchInv(c: Config, w: World, front: Stage)
    requires InvAt(c, w, front) && w.phase.Scheduled?
    ensures InvAt(c, Step(c, w, DispatchNext), front)
  {
    DispatchFindsCurrent(c, w, front);
    FrontEventInv(c, w, front, Pending, map[], Step(c, w, DispatchNext).run);
  }

  // ----- reviews -----

  lemma ApproveRequirementInv(c: Config, w: World, channel: Option<string>)
    requires InvAt(c, w, RequirementAnalysis) && Newest(w.run.rows, RequirementAnalysis).status == Done
    ensures ApprovedRows(w.run.rows, RequirementAnalysis, channel, c.digest).Some?
    ensures var rows := ApprovedRows(w.run.rows, RequirementAnalysis, channel, c.digest).value;
      TableInv(c, rows, DataSelection) && Newest(rows, DataSelection).status == Pending
  {
    var rows := w.run.rows;
    LatestIsNewest(rows, RequirementAnalysis);
    LatestIsNewest(rows, DataSelection);
    LatestIsNewest(rows, DataProcessing);
    var p := Latest(rows, RequirementAnalysis).value;
    var row := rows[p].(output := ApprovedRequirement(rows[p].output, channel));
    UpdateKeeps(rows, p, row);
    ApprovalsUpdated(rows, p, row);
  }

  lemma ApproveSelectionInv(c: Config, w: World, channel: Option<string>)
    requires InvAt(c, w, DataSelection) && Newest(w.run.rows, DataSelection).status == Done
    ensures ApprovedRows(w.run.rows, DataSelection, channel, c.digest).Some?
    ensures var rows := ApprovedRows(w.run.rows, DataSelection, channel, c.digest).value;
      TableInv(c, rows, DataProcessing) && Newest(rows, DataProcessing).status == Pending
  {
    var rows := w.run.rows;
    LatestIsNewest(rows, RequirementAnalysis);
    LatestIsNewest(rows, DataSelection);
    LiveQueries(rows, DataProcessing);
    var p, q := Latest(rows, DataSelection).value, Latest(rows, DataProcessing).value;
    var plan := SnapshotPlan(rows[p].output);
    var row := rows[q].(approved := Some(Approval(p, plan, c.digest(plan))));
    UpdateKeeps(rows, q, row);
    ApprovalsUpdated(rows, q, row);
  }

  lemma ApprovalInv(c: Config, w: World, front: Stage, channel: Option<string>, scheduled: bool)
    requires InvAt(c, w, front) && !front.DataProcessing? && Newest(w.run.rows, front).status == Done
    ensures ApprovedRows(w.run.rows, front, channel, c.digest).Some?
    ensures var rows := ApprovedRows(w.run.rows, front, channel, c.digest).value;
            var run := w.run.(rows := rows, status := Queued, place := At(NextStage(front)), rollbackTo := None);
            InvAt(c, Control(w, Redispatched(run, scheduled), scheduled), NextStage(front))
  {
    if front.RequirementAnalysis? {
      ApproveRequirementInv(c, w, channel);
    } else {
      ApproveSelectionInv(c, w, channel);
    }
    var rows := ApprovedRows(w.run.rows, front, channel, c.digest).value;
    var run := w.run.(rows := rows, status := Queued, place := At(NextStage(front)), rollbackTo := None);
    RequeuedInv(c, w, run, NextStage(front), scheduled);
  }

  /** Where a retry or a rejection sends the run. */
  function ReviewTarget(run: RunState, r: ReviewRequest, reviewed: Stage): Stage {
    if IsRetry(run, r) then reviewed else RejectTarget(reviewed, r.code)
  }

  lemma ReviewGoesBack(c: Config, w: World, r: ReviewRequest, scheduled: bool, reviewed: Stage)
    requires ReviewedStage(w.run, r) == Some(reviewed) && (IsRetry(w.run, r) || !r.approved)
    ensures Step(c, w, Review(r, scheduled))
         == Control(w, RollBack(w.run, ReviewTarget(w.run, r, reviewed), scheduled), scheduled)
  {}

  lemma GoingBackInv(c: Config, w: World, front: Stage, r: ReviewRequest, scheduled: bool, reviewed: Stage)
    requires InvAt(c, w, front) && ReviewedStage(w.run, r) == Some(reviewed) && (IsRetry(w.run, r) || !r.approved)
    requires Restartable(w.run.rows, front, ReviewTarget(w.run, r, reviewed))
    ensures InvAt(c, Step(c, w, Review(r, scheduled)), ReviewTarget(w.run, r, reviewed))
  {
    ReviewGoesBack(c, w, r, scheduled, reviewed);
    RollBackInv(c, w, front, ReviewTarget(w.run, r, reviewed), scheduled);
  }

  lemma ReviewInv(c: Config, w: World, front: Stage, r: ReviewRequest, scheduled: bool)
    requires InvAt(c, w, front) && SafeReview(w, Review(r, scheduled))
    ensures Inv(c, Step(c, w, Review(r, scheduled)))
  {
    var reviewed := ReviewedStage(w.run, r);
    var next := Step(c, w, Review(r, scheduled));
    if reviewed.None? {
      assert InvAt(c, next, front);
    } else if IsRetry(w.run, r) || !r.approved {
      GoingBackInv(c, w, front, r, scheduled, reviewed.value);
    } else if front.DataProcessing? {
      assert InvAt(c, next, front);
    } else {
      ApprovalInv(c, w, front, r.deliveryChannel, scheduled);
      assert InvAt(c, next, NextStage(front));
    }
  }

  /** Below the limit the watchdog logs and rolls back to the front stage. */
  lemma WatchdogReopens(c: Config, w: World, front: Stage, stale: bool, scheduled: bool)
    requires InvAt(c, w, front) && Recovers(w.run, stale, c.limit)
    ensures Step(c, w, Watchdog(stale, scheduled))
         == Control(w, RollBack(Noted(w.run, stale), front, scheduled), scheduled)
  {
    RunningIsFront(c, w, front);
  }

  function Noted(run: RunState, stale: bool): RunState {
    run.(log := run.log + [LogEntry(ProgressEntry, StaleRow(run, stale), Unset)])
  }

  lemma LogIsIrrelevant(c: Config, w: World, front: Stage, run: RunState)
    requires InvAt(c, w, front) && run == w.run.(log := run.log)
    ensures InvAt(c, w.(run := run), front)
  {}

  lemma WatchdogReopensInv(c: Config, w: World, front: Stage, stale: bool, scheduled: bool)
    requires InvAt(c, w, front) && Recovers(w.run, stale, c.limit)
    ensures InvAt(c, Step(c, w, Watchdog(stale, scheduled)), front)
  {
    WatchdogReopens(c, w, front, stale, scheduled);
    LogIsIrrelevant(c, w, front, Noted(w.run, stale));
    RollBackInv(c, w.(run := Noted(w.run, stale)), front, front, scheduled);
  }

  /** At the limit it fails the front stage, like an event would. */
  lemma WatchdogFailsInv(c: Config, w: World, front: Stage, stale: bool, scheduled: bool)
    requires InvAt(c, w, front) && StaleRow(w.run, stale).Some? && !Recovers(w.run, stale, c.limit)
    ensures InvAt(c, Step(c, w, Watchdog(stale, scheduled)), front)
  {
    RunningIsFront(c, w, front);
    var p := StaleRow(w.run, stale).value;
    assert w.run.rows[p] in w.run.rows;
    FrontUpdated(c, w.run.rows, p, w.run.rows[p].(status := Broken), front);
    BrokenFields(w, front, WatchdogRecovered(w.run, stale, c.limit, scheduled));
  }

  /** A run that fails at its front stage keeps what its fields say. */
  lemma BrokenFields(w: World, front: Stage, run: RunState)
    requires Attempts(w.run.rows) && FieldsAgree(w.run, w.phase, front) && !w.phase.Scheduled?
    requires Attempts(run.rows) && run.status == Failed && run.place == At(front) && run.rollbackTo == w.run.rollbackTo
    ensures FieldsAgree(run, w.phase, front)
  {}

  lemma WatchdogInv(c: Config, w: World, front: Stage, stale: bool, scheduled: bool)
    requires InvAt(c, w, front)
    ensures InvAt(c, Step(c, w, Watchdog(stale, scheduled)), front)
  {
    if Recovers(w.run, stale, c.limit) {
      WatchdogReopensInv(c, w, front, stale, scheduled);
    } else if StaleRow(w.run, stale).Some? {
      WatchdogFailsInv(c, w, front, stale, scheduled);
    }
  }

  lemma AdminInv(c: Config, w: World, front: Stage, scheduled: bool)
    requires InvAt(c, w, front)
    ensures InvAt(c, Step(c, w, Admin(scheduled)), RequirementAnalysis)
  {
    var logged := w.run.(log := w.run.log + [LogEntry(ProgressEntry, None, Unset)]);
    LogIsIrrelevant(c, w, front, logged);
    RollBackInv(c, w.(run := logged), front, RequirementAnalysis, scheduled);
    AdminRollsBack(c, w, scheduled);
  }

  /** An admin recovery logs and rolls back to the first stage. */
  lemma AdminRollsBack(c: Config, w: World, scheduled: bool)
    ensures Step(c, w, Admin(scheduled))
         == var noted := w.run.(log := w.run.log + [LogEntry(ProgressEntry, None, Unset)]);
            Control(w, RollBack(noted, RequirementAnalysis, scheduled), scheduled)
  {
  }

  lemma StepInv(c: Config, w: World, a: Action)
    requires Inv(c, w) && Enabled(w, a) && SafeReview(w, a)
    ensures Inv(c, Step(c, w, a))
  {
    var front :| InvAt(c, w, front);
    match a {
      case DispatchNext => DispatchInv(c, w, front);
      case Progress => EventInv(c, w, front, a);
      case Finish(_) => EventInv(c, w, front, a);
      case Fail(code, _) =>
        EmittedGoesBack(w.phase.stage, code);
        EventInv(c, w, front, a);
      case Foreign(_) => assert InvAt(c, Step(c, w, a), front);
      case AgentLog(_, _, _) => assert InvAt(c, Step(c, w, a), front);
      case Review(r, scheduled) => ReviewInv(c, w, front, r, scheduled);
      case Admin(scheduled) => AdminInv(c, w, front, scheduled);
      case Watchdog(stale, scheduled) => WatchdogInv(c, w, front, stale, scheduled);
    }
  }

  lemma {:induction false} HistoryInv(c: Config, w: World, history: seq<Action>)
    requires Inv(c, w) && Legal(c, w, history)
    ensures Inv(c, After(c, w, history))
    decreases |history|
  {
    if history != [] {
      StepInv(c, w, history[0]);
      HistoryInv(c, Step(c, w, history[0]), history[1..]);
    }
  }

  /**
   The newest attempts read Done*, the current stage, Pending*, and when processing is current its
   newest attempt carries the verified approval of the newest, completed selection attempt.
   */
  predicate PlanLinked(c: Config, run: RunState) {
    && Attempts(run.rows)
    && (run.place.At? ==> Shape(run.rows, run.place.stage))
    && (run.place == At(DataProcessing) ==>
          && Newest(run.rows, DataSelection).status == Done && Latest(run.rows, DataSelection).Some?
          && ApprovesRow(c, run.rows, Newest(run.rows, DataProcessing).approved, Latest(run.rows, DataSelection).value))
  }

  lemma InvLinks(c: Config, w: World)
    requires Inv(c, w)
    ensures PlanLinked(c, w.run)
  {
    var front :| InvAt(c, w, front);
  }

  /** The plan is linked in every state of every run whose rejections are safe. */
  lemma ApprovedPlanAlwaysLinked(c: Config, execution: nat, history: seq<Action>)
    requires Legal(c, Initial(execution), history)
    ensures PlanLinked(c, After(c, Initial(execution), history).run)
  {
    InitialInv(c, execution);
    HistoryInv(c, Initial(execution), history);
    InvLinks(c, After(c, Initial(execution), history));
  }

  /** Every dispatch of every legal run starts the current stage and builds its payload. */
  lemma DispatchNeverFails(c: Config, execution: nat, history: seq<Action>)
    requires Legal(c, Initial(execution), history) && After(c, Initial(execution), history).phase.Scheduled?
    ensures var run := After(c, Initial(execution), history).run; var p := NextPending(run);
      && p.Some? && run.place == At(run.rows[p.value].stage)
      && p == Latest(run.rows, run.rows[p.value].stage)
      && PayloadBuilds(run, p.value, c.digest)
  {
    InitialInv(c, execution);
    HistoryInv(c, Initial(execution), history);
    var w := After(c, Initial(execution), history);
    var front :| InvAt(c, w, front);
    DispatchFindsCurrent(c, w, front);
  }
}
