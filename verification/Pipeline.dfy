/**
 One pipeline run: its status fields and its stage attempts, under human reviews, admin and
 watchdog recovery, and status events of the agent executions.
 Follows app/domains/pipeline/service.py, stale_run_monitor.py, supervisor.py and
 app/worker/status_recorder.py.  Every operation is a function on `RunState`; class `PipelineRun`
 of `StoredRun` performs the same operations by assigning its fields, as the source does.
 A stage row's database id is modelled by its position in the table.
 */
module Pipeline {
  import opened Values

  datatype Stage = RequirementAnalysis | DataSelection | DataProcessing

  const STAGE_ORDER: seq<Stage> := [RequirementAnalysis, DataSelection, DataProcessing]

  function Index(stage: Stage): nat {
    match stage
    case RequirementAnalysis => 0
    case DataSelection => 1
    case DataProcessing => 2
  }

  /** `run.current_stage`: a stage, the marker of a failed dispatch, or null. */
  datatype Place = At(stage: Stage) | Dispatch | Unset

  datatype RunStatus =
    | Queued | Running | WaitingRequirementReview | WaitingSampleReview | WaitingFinalReview | Completed | Failed

  datatype StageStatus = Pending | InProgress | Done | Broken | RolledBack

  datatype RequestStatus = RequestQueued | RequestRunning | RequestWaiting | RequestCompleted | RequestFailed

  type Output = map<string, Value>

  /** `input_payload["approved_selection"]`. */
  datatype Approval = Approval(stageRun: nat, plan: Output, sha256: string)

  datatype StageRow = StageRow(
    stage: Stage, attempt: nat, status: StageStatus, retryOf: Option<nat>, approved: Option<Approval>, output: Output)

  datatype LogKind = ProgressEntry | FailedEntry | AgentLogEntry

  datatype LogEntry = LogEntry(kind: LogKind, row: Option<nat>, place: Place)

  datatype RunState = RunState(
    status: RunStatus,
    place: Place,
    execution: nat,
    nextExecution: nat,
    rollbackTo: Option<Stage>,
    request: RequestStatus,
    rows: seq<StageRow>,
    log: seq<LogEntry>)

  // ----- queries over the stage table -----

  /** The row of a stage with the highest attempt number, then the highest id. */
  function Latest(rows: seq<StageRow>, stage: Stage): (r: Option<nat>)
    ensures r.Some? ==> r.value < |rows| && rows[r.value].stage == stage
  {
    if rows == [] then None
    else
      var n := |rows| - 1;
      var earlier := Latest(rows[..n], stage);
      if rows[n].stage == stage && (earlier.None? || rows[earlier.value].attempt <= rows[n].attempt) then Some(n)
      else earlier
  }

  /** The same among the rows of one status. */
  function LatestWith(rows: seq<StageRow>, stage: Stage, status: StageStatus): (r: Option<nat>)
    ensures r.Some? ==> r.value < |rows| && rows[r.value].stage == stage && rows[r.value].status == status
  {
    if rows == [] then None
    else
      var n := |rows| - 1;
      var earlier := LatestWith(rows[..n], stage, status);
      if rows[n].stage == stage && rows[n].status == status
         && (earlier.None? || rows[earlier.value].attempt <= rows[n].attempt) then Some(n)
      else earlier
  }

  /** The running row the watchdog picks, whatever its stage. */
  function LatestRunning(rows: seq<StageRow>): (r: Option<nat>)
    ensures r.Some? ==> r.value < |rows| && rows[r.value].status == InProgress
  {
    if rows == [] then None
    else
      var n := |rows| - 1;
      var earlier := LatestRunning(rows[..n]);
      if rows[n].status == InProgress && (earlier.None? || rows[earlier.value].attempt <= rows[n].attempt) then Some(n)
      else earlier
  }

  /** The pending row of a stage with the lowest attempt number. */
  function FirstPending(rows: seq<StageRow>, stage: Stage): (r: Option<nat>)
    ensures r.Some? ==> r.value < |rows| && rows[r.value].stage == stage && rows[r.value].status == Pending
  {
    if rows == [] then None
    else
      var n := |rows| - 1;
      var earlier := FirstPending(rows[..n], stage);
      if rows[n].stage == stage && rows[n].status == Pending
         && (earlier.None? || rows[n].attempt < rows[earlier.value].attempt) then Some(n)
      else earlier
  }

  // ----- re-opening a suffix of stages -----

  predicate Reopenable(status: StageStatus) { status != RolledBack }

  function Mark(rows: seq<StageRow>, target: Stage): seq<StageRow> {
    seq(|rows|, i requires 0 <= i < |rows| =>
      if Index(rows[i].stage) >= Index(target) && Reopenable(rows[i].status) then rows[i].(status := RolledBack)
      else rows[i])
  }

  function NewAttempt(rows: seq<StageRow>, stage: Stage): StageRow {
    match Latest(rows, stage)
    case Some(p) => StageRow(stage, rows[p].attempt + 1, Pending, Some(p), rows[p].approved, map[])
    case None => StageRow(stage, 1, Pending, None, None, map[])
  }

  function NewAttempts(rows: seq<StageRow>, stages: seq<Stage>): seq<StageRow> {
    seq(|stages|, i requires 0 <= i < |stages| => NewAttempt(rows, stages[i]))
  }

  function ReopenRows(rows: seq<StageRow>, target: Stage): seq<StageRow> {
    var marked := Mark(rows, target);
    marked + NewAttempts(marked, STAGE_ORDER[Index(target)..])
  }

  // ----- approved plans -----

  const APPROVED_PLAN_FIELDS := {
    "selected_tables", "source_columns", "derived_columns", "selection_query",
    "interpretations", "catalog_matches", "catalog_issues"}

  /** `snapshot_selection_plan`: the seven plan fields, with empty defaults. */
  function SnapshotPlan(output: Output): Output {
    map f | f in APPROVED_PLAN_FIELDS ::
      if f in output then output[f] else if f == "selection_query" then Dict(map[]) else List([])
  }

  /** `verify_selection_plan` for a digest function. */
  predicate PlanVerifies(digest: Output -> string, approval: Approval) {
    digest(approval.plan) == approval.sha256
  }

  // ----- rollback policy -----

  datatype FailureCode =
    | SchemaInvalid | RequiredKeyMissing | FormatInvalid | LogicalContradiction | MisinterpretedRequirement
    | InsufficientData | LowSimilarityMatch | DuplicatedData | OutlierDetected | SelectionRuleInvalid
    | ProcessingRuleInvalid | PrivacyThresholdNotMet | HumanRejected | AgentRuntimeUnavailable

  function RollbackTarget(code: Option<FailureCode>): Stage {
    match code
    case None => RequirementAnalysis
    case Some(c) =>
      if c.InsufficientData? || c.LowSimilarityMatch? || c.DuplicatedData? || c.OutlierDetected?
         || c.SelectionRuleInvalid? || c.PrivacyThresholdNotMet? then DataSelection
      else if c.FormatInvalid? || c.ProcessingRuleInvalid? then DataProcessing
      else RequirementAnalysis
  }

  /** Where a failed stage says the run should go back to. */
  function FailureRollback(stage: Stage, code: Option<FailureCode>): Stage {
    if code == Some(AgentRuntimeUnavailable) then stage else RollbackTarget(code)
  }

  function Gate(stage: Stage): RunStatus {
    match stage
    case RequirementAnalysis => WaitingRequirementReview
    case DataSelection => WaitingSampleReview
    case DataProcessing => WaitingFinalReview
  }

  function GateStage(status: RunStatus): Option<Stage> {
    match status
    case WaitingRequirementReview => Some(RequirementAnalysis)
    case WaitingSampleReview => Some(DataSelection)
    case WaitingFinalReview => Some(DataProcessing)
    case _ => None
  }

  // ----- operations -----

  /** A new request: three first attempts, queued at the first stage. */
  function Created(execution: nat): RunState {
    RunState(Queued, At(RequirementAnalysis), execution, execution + 1, None, RequestQueued,
             NewAttempts([], STAGE_ORDER), [])
  }

  /** `_redispatch`: a fresh execution id, committed with whatever was changed before it. */
  function Redispatched(s: RunState, scheduled: bool): RunState {
    var t := s.(execution := s.nextExecution, nextExecution := s.nextExecution + 1);
    if scheduled then t
    else t.(status := Failed, place := Dispatch, log := t.log + [LogEntry(FailedEntry, None, Unset)])
  }

  function RollBack(s: RunState, target: Stage, scheduled: bool): RunState {
    Redispatched(
      s.(rows := ReopenRows(s.rows, target), status := Queued, place := At(target), rollbackTo := Some(target)),
      scheduled)
  }

  datatype ReviewRequest = ReviewRequest(
    approved: bool, retry: bool, code: Option<FailureCode>, deliveryChannel: Option<string>)

  /** Which stage a rejection at a gate goes back to. */
  function RejectTarget(gate: Stage, code: Option<FailureCode>): Stage {
    if gate.DataSelection? && code.None? then DataSelection
    else if gate.DataProcessing? && code.None? then DataProcessing
    else RollbackTarget(if code.Some? then code else Some(HumanRejected))
  }

  predicate IsRetry(s: RunState, r: ReviewRequest) { s.status.Failed? && r.retry }

  /** The stage a review is about; None is a refused request. */
  function ReviewedStage(s: RunState, r: ReviewRequest): Option<Stage> {
    if IsRetry(s, r) then
      if s.rollbackTo.Some? then s.rollbackTo else if s.place.At? then Some(s.place.stage) else None
    else GateStage(s.status)
  }

  function ApprovedRequirement(output: Output, channel: Option<string>): Output {
    (if channel.Some? then output["delivery_channel" := Str(channel.value)] else output)
      ["output_formats" := List([Str("csv")])]
  }

  /** Approval of a stage that has a next one, before the redispatch; None is a refused request. */
  function ApprovedRows(
    rows: seq<StageRow>, stage: Stage, channel: Option<string>, digest: Output -> string): Option<seq<StageRow>>
    requires !stage.DataProcessing?
  {
    match Latest(rows, stage)
    case None => None
    case Some(p) =>
      if stage.RequirementAnalysis? then
        Some(rows[p := rows[p].(output := ApprovedRequirement(rows[p].output, channel))])
      else
        match LatestWith(rows, DataProcessing, Pending)
        case None => None
        case Some(q) =>
          var plan := SnapshotPlan(rows[p].output);
          Some(rows[q := rows[q].(approved := Some(Approval(p, plan, digest(plan))))])
  }

  function NextStage(stage: Stage): Stage
    requires !stage.DataProcessing?
  {
    STAGE_ORDER[Index(stage) + 1]
  }

  /** `submit_stage_review`; a refused request leaves the run as it was. */
  function Reviewed(s: RunState, r: ReviewRequest, digest: Output -> string, scheduled: bool): RunState {
    match ReviewedStage(s, r)
    case None => s
    case Some(stage) =>
      if IsRetry(s, r) then RollBack(s, if s.rollbackTo.Some? then s.rollbackTo.value else stage, scheduled)
      else if !r.approved then RollBack(s, RejectTarget(stage, r.code), scheduled)
      else if stage.DataProcessing? then
        s.(status := Completed, place := At(stage), rollbackTo := None, request := RequestCompleted)
      else
        match ApprovedRows(s.rows, stage, r.deliveryChannel, digest)
        case None => s
        case Some(rows) =>
          Redispatched(s.(rows := rows, status := Queued, place := At(NextStage(stage)), rollbackTo := None), scheduled)
  }

  function AdminRecovered(s: RunState, scheduled: bool): RunState {
    Redispatched(
      s.(rows := ReopenRows(s.rows, RequirementAnalysis), status := Queued, place := At(RequirementAnalysis),
         rollbackTo := Some(RequirementAnalysis), log := s.log + [LogEntry(ProgressEntry, None, Unset)]),
      scheduled)
  }

  /** The row the watchdog would act on, if the run is running, stale and has one. */
  function StaleRow(s: RunState, stale: bool): Option<nat> {
    if s.status.Running? && stale then LatestRunning(s.rows) else None
  }

  predicate Recovers(s: RunState, stale: bool, limit: int) {
    StaleRow(s, stale).Some? && s.rows[StaleRow(s, stale).value].attempt < limit
  }

  /** `_recover_stale_run`: reopen and redispatch below the limit, otherwise fail the run. */
  function WatchdogRecovered(s: RunState, stale: bool, limit: int, scheduled: bool): RunState {
    match StaleRow(s, stale)
    case None => s
    case Some(p) =>
      var stage := s.rows[p].stage;
      if Recovers(s, stale, limit) then
        RollBack(s.(log := s.log + [LogEntry(ProgressEntry, Some(p), Unset)]), stage, scheduled)
      else
        s.(rows := s.rows[p := s.rows[p].(status := Broken)], status := Failed, place := At(stage),
           request := RequestFailed, log := s.log + [LogEntry(FailedEntry, Some(p), Unset)])
  }

  /** A status event of one execution. */
  datatype Event = Event(
    execution: nat, status: RunStatus, place: Place, stageStatus: Option<StageStatus>,
    result: Output, rollbackTo: Option<Stage>)

  function RequestAfter(status: RunStatus): RequestStatus {
    match status
    case Failed => RequestFailed
    case Completed => RequestCompleted
    case Running => RequestRunning
    case _ => RequestWaiting
  }

  /** The stage row an event is about. */
  function EventRow(s: RunState, e: Event): (r: Option<nat>)
    ensures r.Some? ==> r.value < |s.rows| && e.stageStatus.Some?
  {
    if e.stageStatus.Some? && e.place.At? then Latest(s.rows, e.place.stage) else None
  }

  function EventRows(s: RunState, e: Event): seq<StageRow> {
    match EventRow(s, e)
    case None => s.rows
    case Some(p) =>
      var row := s.rows[p].(status := e.stageStatus.value);
      s.rows[p := if row.status.Done? || row.status.Broken? then row.(output := e.result) else row]
  }

  /** `persist_status_event`: an event of any execution but the current one changes nothing. */
  function Persisted(s: RunState, e: Event): RunState {
    if e.execution != s.execution then s
    else
      s.(status := e.status,
         place := e.place,
         rollbackTo := e.rollbackTo,
         request := RequestAfter(e.status),
         rows := EventRows(s, e),
         log := s.log + [LogEntry(if e.status.Failed? then FailedEntry else ProgressEntry, EventRow(s, e), e.place)])
  }

  /** `record_agent_log`: one log line, for the current execution only. */
  function Logged(s: RunState, execution: nat, row: Option<nat>, place: Place): RunState {
    if execution != s.execution then s else s.(log := s.log + [LogEntry(AgentLogEntry, row, place)])
  }

  // ----- supervisor -----

  /** `next_pending_stage`; None is a dispatch error. */
  function NextPending(s: RunState): (r: Option<nat>)
    ensures r.Some? ==> r.value < |s.rows| && s.rows[r.value].status == Pending
  {
    if LatestRunning(s.rows).Some? then None
    else if s.rollbackTo.Some? then FirstPending(s.rows, s.rollbackTo.value)
    else if FirstPending(s.rows, RequirementAnalysis).Some? then FirstPending(s.rows, RequirementAnalysis)
    else if FirstPending(s.rows, DataSelection).Some? then FirstPending(s.rows, DataSelection)
    else FirstPending(s.rows, DataProcessing)
  }

  /** `build_stage_payload` finds everything the stage needs. */
  predicate PayloadBuilds(s: RunState, p: nat, digest: Output -> string)
    requires p < |s.rows|
  {
    match s.rows[p].stage
    case RequirementAnalysis => true
    case DataSelection => LatestWith(s.rows, RequirementAnalysis, Done).Some?
    case DataProcessing =>
      && LatestWith(s.rows, RequirementAnalysis, Done).Some?
      && s.rows[p].approved.Some?
      && PlanVerifies(digest, s.rows[p].approved.value)
  }
}
