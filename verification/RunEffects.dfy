/**
 What each operation on a run does to it, stated on the state before and the state after: which rows
 change, in which fields, and what the run, its request and its log say afterwards.
 */
module RunEffects {
  import opened Values
  import opened Pipeline
  import StageAttempts

  // ----- which rows an operation is about -----

  /** A row and the ones it competes with: it has the highest attempt number, the last of equals. */
  predicate Newest(rows: seq<StageRow>, among: StageRow -> bool, p: nat) {
    && p < |rows| && among(rows[p])
    && forall i | 0 <= i < |rows| && among(rows[i]) ::
         rows[i].attempt < rows[p].attempt || (rows[i].attempt == rows[p].attempt && i <= p)
  }

  predicate NoneOf(rows: seq<StageRow>, among: StageRow -> bool) { forall i | 0 <= i < |rows| :: !among(rows[i]) }

  /** The query finds the newest of these rows, and nothing only when there is none. */
  predicate Finds(rows: seq<StageRow>, among: StageRow -> bool, found: Option<nat>) {
    if found.Some? then Newest(rows, among, found.value) else NoneOf(rows, among)
  }

  function OfStage(stage: Stage): StageRow -> bool { (row: StageRow) => row.stage == stage }

  function OfStatus(stage: Stage, status: StageStatus): StageRow -> bool {
    (row: StageRow) => row.stage == stage && row.status == status
  }

  function IsRunning(): StageRow -> bool { (row: StageRow) => row.status == InProgress }

  /** Looking at one more row. */
  function Newer(rows: seq<StageRow>, among: StageRow -> bool, earlier: Option<nat>): Option<nat>
    requires rows != [] && (earlier.Some? ==> earlier.value < |rows|)
  {
    var n := |rows| - 1;
    if among(rows[n]) && (earlier.None? || rows[earlier.value].attempt <= rows[n].attempt) then Some(n) else earlier
  }

  lemma FindsNewer(rows: seq<StageRow>, among: StageRow -> bool, earlier: Option<nat>)
    requires rows != [] && Finds(rows[..|rows| - 1], among, earlier)
    ensures Finds(rows, among, Newer(rows, among, earlier))
  {
    var n := |rows| - 1;
    assert forall i | 0 <= i < n :: rows[..n][i] == rows[i];
  }

  lemma {:induction false} LatestFinds(rows: seq<StageRow>, stage: Stage)
    ensures Finds(rows, OfStage(stage), Latest(rows, stage))
  {
    if rows != [] {
      LatestFinds(rows[..|rows| - 1], stage);
      FindsNewer(rows, OfStage(stage), Latest(rows[..|rows| - 1], stage));
    }
  }

  lemma {:induction false} LatestWithFinds(rows: seq<StageRow>, stage: Stage, status: StageStatus)
    ensures Finds(rows, OfStatus(stage, status), LatestWith(rows, stage, status))
  {
    if rows != [] {
      LatestWithFinds(rows[..|rows| - 1], stage, status);
      FindsNewer(rows, OfStatus(stage, status), LatestWith(rows[..|rows| - 1], stage, status));
    }
  }

  lemma {:induction false} LatestRunningFinds(rows: seq<StageRow>)
    ensures Finds(rows, IsRunning(), LatestRunning(rows))
  {
    if rows != [] {
      LatestRunningFinds(rows[..|rows| - 1]);
      FindsNewer(rows, IsRunning(), LatestRunning(rows[..|rows| - 1]));
    }
  }

  lemma NewestUnique(rows: seq<StageRow>, among: StageRow -> bool, p: nat, q: nat)
    requires Newest(rows, among, p) && Newest(rows, among, q)
    ensures p == q
  {}

  // ----- status events -----

  /** The event carries a stage status for this row, the newest of its stage. */
  predicate About(rows: seq<StageRow>, e: Event, p: nat) {
    e.stageStatus.Some? && e.place.At? && Newest(rows, OfStage(e.place.stage), p)
  }

  /** The row after the event: its status, and its result when the stage has ended. */
  function Told(row: StageRow, e: Event): StageRow
    requires e.stageStatus.Some?
  {
    StageRow(row.stage, row.attempt, e.stageStatus.value, row.retryOf, row.approved,
             if e.stageStatus == Some(Done) || e.stageStatus == Some(Broken) then e.result else row.output)
  }

  predicate RequestFollows(status: RunStatus, request: RequestStatus) {
    && (status == Failed ==> request == RequestFailed)
    && (status == Completed ==> request == RequestCompleted)
    && (status == Running ==> request == RequestRunning)
    && (status != Failed && status != Completed && status != Running ==> request == RequestWaiting)
  }

  /** The event is an event of another execution and changes nothing, or all of the run follows it. */
  predicate EventEffect(s: RunState, e: Event, t: RunState) {
    if e.execution != s.execution then t == s
    else
      && t.status == e.status && t.place == e.place && t.rollbackTo == e.rollbackTo
      && t.execution == s.execution && t.nextExecution == s.nextExecution && RequestFollows(e.status, t.request)
      && |t.rows| == |s.rows|
      && (forall i | 0 <= i < |s.rows| :: t.rows[i] == if About(s.rows, e, i) then Told(s.rows[i], e) else s.rows[i])
      && |t.log| == |s.log| + 1 && t.log[..|s.log|] == s.log
      && var entry := t.log[|s.log|];
         && entry.kind == (if e.status == Failed then FailedEntry else ProgressEntry) && entry.place == e.place
         && if entry.row.Some? then About(s.rows, e, entry.row.value)
            else forall i | 0 <= i < |s.rows| :: !About(s.rows, e, i)
  }

  lemma RowTold(s: RunState, e: Event, i: nat)
    requires i < |s.rows|
    ensures |EventRows(s, e)| == |s.rows|
    ensures EventRows(s, e)[i] == if About(s.rows, e, i) then Told(s.rows[i], e) else s.rows[i]
    ensures About(s.rows, e, i) <==> EventRow(s, e) == Some(i)
  {
    if e.stageStatus.Some? && e.place.At? {
      LatestFinds(s.rows, e.place.stage);
      var p := Latest(s.rows, e.place.stage);
      if p.Some? && About(s.rows, e, i) { NewestUnique(s.rows, OfStage(e.place.stage), i, p.value); }
    }
  }

  lemma EventEffects(s: RunState, e: Event)
    ensures EventEffect(s, e, Persisted(s, e))
  {
    if e.execution == s.execution {
      forall i | 0 <= i < |s.rows|
        ensures |EventRows(s, e)| == |s.rows|
        ensures EventRows(s, e)[i] == if About(s.rows, e, i) then Told(s.rows[i], e) else s.rows[i]
        ensures About(s.rows, e, i) <==> EventRow(s, e) == Some(i)
      {
        RowTold(s, e, i);
      }
    }
  }

  // ----- re-opening -----

  /** The first new attempt of a stage, or the next one after its newest. */
  predicate Reattempt(rows: seq<StageRow>, stage: Stage, row: StageRow) {
    && row.stage == stage && row.status == Pending && row.output == map[]
    && if row.retryOf.Some? then
         && Newest(rows, OfStage(stage), row.retryOf.value)
         && row.attempt == rows[row.retryOf.value].attempt + 1 && row.approved == rows[row.retryOf.value].approved
       else NoneOf(rows, OfStage(stage)) && row.attempt == 1 && row.approved == None
  }

  /** Every row from the target stage on is rolled back and each of those stages gets a new attempt, in order. */
  predicate ReopenEffect(rows: seq<StageRow>, target: Stage, after: seq<StageRow>) {
    && |after| == |rows| + 3 - Index(target)
    && (forall i | 0 <= i < |rows| ::
          after[i] == if Index(rows[i].stage) >= Index(target) then rows[i].(status := RolledBack) else rows[i])
    && forall i | |rows| <= i < |after| ::
         Index(after[i].stage) == Index(target) + i - |rows| && Reattempt(rows, after[i].stage, after[i])
  }

  lemma LatestMarked(rows: seq<StageRow>, target: Stage, stage: Stage)
    ensures Latest(Mark(rows, target), stage) == Latest(rows, stage)
  {
    StageAttempts.SkeletonQueries(rows, Mark(rows, target), stage);
  }

  lemma ReopenEffects(rows: seq<StageRow>, target: Stage)
    ensures ReopenEffect(rows, target, ReopenRows(rows, target))
  {
    var marked, after := Mark(rows, target), ReopenRows(rows, target);
    forall i | |rows| <= i < |after|
      ensures Index(after[i].stage) == Index(target) + i - |rows| && Reattempt(rows, after[i].stage, after[i])
    {
      var stage := STAGE_ORDER[Index(target)..][i - |rows|];
      assert after[i] == NewAttempt(marked, stage);
      LatestMarked(rows, target, stage);
      LatestFinds(rows, stage);
    }
  }

  // ----- restarting -----

  /** The run goes on with a fresh execution at the place, or fails at once when none can be scheduled. */
  predicate Restarted(
    s: RunState, rows: seq<StageRow>, stage: Stage, back: Option<Stage>, log: seq<LogEntry>, scheduled: bool,
    t: RunState)
  {
    && t.rows == rows && t.rollbackTo == back && t.request == s.request
    && t.execution == s.nextExecution && t.nextExecution == s.nextExecution + 1
    && if scheduled then t.status == Queued && t.place == At(stage) && t.log == log
       else t.status == Failed && t.place == Dispatch && t.log == log + [LogEntry(FailedEntry, None, Unset)]
  }

  /** Re-opened from the stage on, and restarted there. */
  predicate SentBack(s: RunState, stage: Stage, log: seq<LogEntry>, scheduled: bool, t: RunState) {
    ReopenEffect(s.rows, stage, t.rows) && Restarted(s, t.rows, stage, Some(stage), log, scheduled, t)
  }

  lemma RollBackSends(s: RunState, target: Stage, scheduled: bool)
    ensures SentBack(s, target, s.log, scheduled, RollBack(s, target, scheduled))
  {
    ReopenEffects(s.rows, target);
  }

  // ----- reviews -----

  /** Where a rejection goes back to: the gate's own stage, or what the failure code stands for. */
  predicate RejectedTo(gate: Stage, code: Option<FailureCode>, target: Stage) {
    match code
    case None => target == gate
    case Some(c) =>
      target ==
        if c in {InsufficientData, LowSimilarityMatch, DuplicatedData, OutlierDetected, SelectionRuleInvalid,
                 PrivacyThresholdNotMet} then DataSelection
        else if c in {FormatInvalid, ProcessingRuleInvalid} then DataProcessing
        else RequirementAnalysis
  }

  /** Where a failed stage sends the run: to itself when its agent was not reachable, or where its code says. */
  lemma FailureMeans(stage: Stage, code: Option<FailureCode>)
    ensures match code
      case None => FailureRollback(stage, code) == RequirementAnalysis
      case Some(AgentRuntimeUnavailable) => FailureRollback(stage, code) == stage
      case Some(_) => RejectedTo(stage, code, FailureRollback(stage, code))
  {}

  /** An approved requirement analysis: the channel, if one is given, and the one format there is. */
  predicate RequirementApproved(row: StageRow, channel: Option<string>, after: StageRow) {
    && after == row.(output := after.output)
    && after.output.Keys == row.output.Keys + {"output_formats"} + (if channel.Some? then {"delivery_channel"} else {})
    && after.output["output_formats"] == List([Str("csv")])
    && (channel.Some? ==> after.output["delivery_channel"] == Str(channel.value))
    && forall k | k in row.output && k != "output_formats" && (k != "delivery_channel" || channel.None?) ::
         after.output[k] == row.output[k]
  }

  /** The plan that is approved: seven fields of the selection's output, empty where it has none. */
  predicate PlanOf(output: Output, plan: Output) {
    && plan.Keys == {"selected_tables", "source_columns", "derived_columns", "selection_query", "interpretations",
                     "catalog_matches", "catalog_issues"}
    && forall f | f in plan ::
         plan[f] == if f in output then output[f] else if f == "selection_query" then Dict(map[]) else List([])
  }

  /** The newest selection's plan, with its digest, is handed to the newest pending processing attempt. */
  predicate SelectionApproved(
    rows: seq<StageRow>, digest: Output -> string, after: seq<StageRow>, p: nat, q: nat)
  {
    && Newest(rows, OfStage(DataSelection), p) && Newest(rows, OfStatus(DataProcessing, Pending), q)
    && |after| == |rows| && (forall i | 0 <= i < |rows| && i != q :: after[i] == rows[i])
    && after[q] == rows[q].(approved := after[q].approved) && after[q].approved.Some?
    && var approval := after[q].approved.value;
       approval.stageRun == p && PlanOf(rows[p].output, approval.plan) && approval.sha256 == digest(approval.plan)
  }

  predicate RequirementAccepted(rows: seq<StageRow>, channel: Option<string>, after: seq<StageRow>, p: nat) {
    && Newest(rows, OfStage(RequirementAnalysis), p)
    && |after| == |rows| && (forall i | 0 <= i < |rows| && i != p :: after[i] == rows[i])
    && RequirementApproved(rows[p], channel, after[p])
  }

  /** The stage whose gate the run waits at. */
  predicate WaitsAt(status: RunStatus, gate: Stage) {
    match gate
    case RequirementAnalysis => status == WaitingRequirementReview
    case DataSelection => status == WaitingSampleReview
    case DataProcessing => status == WaitingFinalReview
  }

  ghost predicate ApprovalEffect(
    s: RunState, gate: Stage, r: ReviewRequest, digest: Output -> string, scheduled: bool, t: RunState)
  {
    match gate
    case RequirementAnalysis =>
      (t == s && NoneOf(s.rows, OfStage(RequirementAnalysis)))
      || exists p :: RequirementAccepted(s.rows, r.deliveryChannel, t.rows, p)
                     && Restarted(s, t.rows, DataSelection, None, s.log, scheduled, t)
    case DataSelection =>
      (t == s && (NoneOf(s.rows, OfStage(DataSelection)) || NoneOf(s.rows, OfStatus(DataProcessing, Pending))))
      || exists p, q :: SelectionApproved(s.rows, digest, t.rows, p, q)
                        && Restarted(s, t.rows, DataProcessing, None, s.log, scheduled, t)
    case DataProcessing =>
      t == s.(status := Completed, place := At(DataProcessing), rollbackTo := None, request := RequestCompleted)
  }

  /**
   A retry restarts a failed run where its failure said, or where it was; at a gate, a rejection sends
   the run back and an approval sends it on or completes it; anything else is refused and changes nothing.
   */
  ghost predicate ReviewEffect(s: RunState, r: ReviewRequest, digest: Output -> string, scheduled: bool, t: RunState) {
    if s.status == Failed && r.retry then
      if s.rollbackTo.Some? then SentBack(s, s.rollbackTo.value, s.log, scheduled, t)
      else if s.place.At? then SentBack(s, s.place.stage, s.log, scheduled, t)
      else t == s
    else if forall gate :: !WaitsAt(s.status, gate) then t == s
    else
      exists gate :: WaitsAt(s.status, gate) &&
        if r.approved then ApprovalEffect(s, gate, r, digest, scheduled, t)
        else exists target :: RejectedTo(gate, r.code, target) && SentBack(s, target, s.log, scheduled, t)
  }

  lemma RequirementEffects(s: RunState, r: ReviewRequest, digest: Output -> string, scheduled: bool)
    requires s.status == WaitingRequirementReview && r.approved
    ensures ApprovalEffect(s, RequirementAnalysis, r, digest, scheduled, Reviewed(s, r, digest, scheduled))
  {
    LatestFinds(s.rows, RequirementAnalysis);
    if Latest(s.rows, RequirementAnalysis).Some? {
      var p := Latest(s.rows, RequirementAnalysis).value;
      assert RequirementAccepted(s.rows, r.deliveryChannel, Reviewed(s, r, digest, scheduled).rows, p);
    }
  }

  lemma SelectionEffects(s: RunState, r: ReviewRequest, digest: Output -> string, scheduled: bool)
    requires s.status == WaitingSampleReview && r.approved
    ensures ApprovalEffect(s, DataSelection, r, digest, scheduled, Reviewed(s, r, digest, scheduled))
  {
    LatestFinds(s.rows, DataSelection);
    LatestWithFinds(s.rows, DataProcessing, Pending);
    var p, q := Latest(s.rows, DataSelection), LatestWith(s.rows, DataProcessing, Pending);
    if p.Some? && q.Some? {
      assert SelectionApproved(s.rows, digest, Reviewed(s, r, digest, scheduled).rows, p.value, q.value);
    }
  }

  lemma ApprovalEffects(s: RunState, gate: Stage, r: ReviewRequest, digest: Output -> string, scheduled: bool)
    requires GateStage(s.status) == Some(gate) && r.approved
    ensures ApprovalEffect(s, gate, r, digest, scheduled, Reviewed(s, r, digest, scheduled))
  {
    match gate {
      case RequirementAnalysis => RequirementEffects(s, r, digest, scheduled);
      case DataSelection => SelectionEffects(s, r, digest, scheduled);
      case DataProcessing =>
    }
  }

  lemma ReviewEffects(s: RunState, r: ReviewRequest, digest: Output -> string, scheduled: bool)
    ensures ReviewEffect(s, r, digest, scheduled, Reviewed(s, r, digest, scheduled))
  {
    var t := Reviewed(s, r, digest, scheduled);
    if IsRetry(s, r) {
      if s.rollbackTo.Some? {
        RollBackSends(s, s.rollbackTo.value, scheduled);
      } else if s.place.At? {
        RollBackSends(s, s.place.stage, scheduled);
      }
    } else if GateStage(s.status).Some? {
      var gate := GateStage(s.status).value;
      assert WaitsAt(s.status, gate);
      if r.approved {
        ApprovalEffects(s, gate, r, digest, scheduled);
      } else {
        var target := RejectTarget(gate, r.code);
        RollBackSends(s, target, scheduled);
        assert RejectedTo(gate, r.code, target);
      }
    }
  }

  // ----- recovery -----

  /** Everything is re-opened and restarted at the first stage. */
  predicate AdminEffect(s: RunState, scheduled: bool, t: RunState) {
    SentBack(s, RequirementAnalysis, s.log + [LogEntry(ProgressEntry, None, Unset)], scheduled, t)
  }

  lemma AdminEffects(s: RunState, scheduled: bool)
    ensures AdminEffect(s, scheduled, AdminRecovered(s, scheduled))
  {
    ReopenEffects(s.rows, RequirementAnalysis);
  }

  /** The stale run's newest running row is restarted below the limit, and fails with the run at it. */
  predicate WatchdogActs(s: RunState, limit: int, scheduled: bool, p: nat, t: RunState) {
    && Newest(s.rows, IsRunning(), p)
    && if s.rows[p].attempt < limit then
         SentBack(s, s.rows[p].stage, s.log + [LogEntry(ProgressEntry, Some(p), Unset)], scheduled, t)
       else
         t == s.(rows := s.rows[p := s.rows[p].(status := Broken)], status := Failed, place := At(s.rows[p].stage),
                 request := RequestFailed, log := s.log + [LogEntry(FailedEntry, Some(p), Unset)])
  }

  ghost predicate WatchdogEffect(s: RunState, stale: bool, limit: int, scheduled: bool, t: RunState) {
    if !s.status.Running? || !stale || NoneOf(s.rows, IsRunning()) then t == s
    else exists p :: WatchdogActs(s, limit, scheduled, p, t)
  }

  lemma WatchdogEffects(s: RunState, stale: bool, limit: int, scheduled: bool)
    ensures WatchdogEffect(s, stale, limit, scheduled, WatchdogRecovered(s, stale, limit, scheduled))
  {
    LatestRunningFinds(s.rows);
    if StaleRow(s, stale).Some? {
      var p := StaleRow(s, stale).value;
      RollBackSends(s.(log := s.log + [LogEntry(ProgressEntry, Some(p), Unset)]), s.rows[p].stage, scheduled);
      assert WatchdogActs(s, limit, scheduled, p, WatchdogRecovered(s, stale, limit, scheduled));
    }
  }

  /** A new run: one pending first attempt of each stage in order, queued at the first. */
  predicate IsNew(t: RunState, execution: nat) {
    && t.status == Queued && t.place == At(RequirementAnalysis) && t.rollbackTo == None && t.request == RequestQueued
    && t.execution == execution && t.nextExecution == execution + 1 && t.log == [] && |t.rows| == 3
    && forall i | 0 <= i < 3 ::
         Index(t.rows[i].stage) == i && t.rows[i] == StageRow(t.rows[i].stage, 1, Pending, None, None, map[])
  }

  lemma CreatedIsNew(execution: nat)
    ensures IsNew(Created(execution), execution)
  {}

  // ----- agent log lines -----

  /** A line about the current execution is added, about any other it is dropped. */
  predicate LogEffect(s: RunState, execution: nat, row: Option<nat>, place: Place, t: RunState) {
    if execution != s.execution then t == s
    else
      && |t.log| == |s.log| + 1 && t.log[..|s.log|] == s.log && t.log[|s.log|] == LogEntry(AgentLogEntry, row, place)
      && t == s.(log := t.log)
  }

  lemma LogEffects(s: RunState, execution: nat, row: Option<nat>, place: Place)
    ensures LogEffect(s, execution, row, place, Logged(s, execution, row, place))
  {}

  // ----- dispatching -----

  /** The pending row of a stage with the lowest attempt number, the first of equals. */
  predicate Oldest(rows: seq<StageRow>, stage: Stage, p: nat) {
    && p < |rows| && rows[p].stage == stage && rows[p].status == Pending
    && forall i | 0 <= i < |rows| && rows[i].stage == stage && rows[i].status == Pending ::
         rows[p].attempt < rows[i].attempt || (rows[p].attempt == rows[i].attempt && p <= i)
  }

  predicate PendingIn(rows: seq<StageRow>, stage: Stage) {
    exists i :: 0 <= i < |rows| && rows[i].stage == stage && rows[i].status == Pending
  }

  lemma {:induction false} FirstPendingFinds(rows: seq<StageRow>, stage: Stage)
    ensures FirstPending(rows, stage).None? <==> !PendingIn(rows, stage)
    ensures FirstPending(rows, stage).Some? ==> Oldest(rows, stage, FirstPending(rows, stage).value)
  {
    if rows != [] {
      var n := |rows| - 1;
      FirstPendingFinds(rows[..n], stage);
      assert forall i | 0 <= i < n :: rows[..n][i] == rows[i];
    }
  }

  /** The stage a dispatch would start: where a rollback said, otherwise the first with a pending row. */
  predicate Starts(s: RunState, stage: Stage) {
    match s.rollbackTo
    case Some(target) => stage == target
    case None =>
      PendingIn(s.rows, stage)
      && forall earlier: Stage | Index(earlier) < Index(stage) :: !PendingIn(s.rows, earlier)
  }

  /** The stage the dispatch looks at. */
  lemma Looks(s: RunState) returns (stage: Stage)
    ensures LatestRunning(s.rows).None? ==> NextPending(s) == FirstPending(s.rows, stage)
    ensures if PendingIn(s.rows, stage) then Starts(s, stage)
            else forall other | Starts(s, other) :: !PendingIn(s.rows, other)
  {
    if s.rollbackTo.Some? {
      stage := s.rollbackTo.value;
    } else {
      FirstPendingFinds(s.rows, RequirementAnalysis);
      FirstPendingFinds(s.rows, DataSelection);
      FirstPendingFinds(s.rows, DataProcessing);
      stage := if PendingIn(s.rows, RequirementAnalysis) then RequirementAnalysis
               else if PendingIn(s.rows, DataSelection) then DataSelection else DataProcessing;
    }
  }

  predicate Busy(s: RunState) { exists i :: 0 <= i < |s.rows| && s.rows[i].status == InProgress }

  /** A dispatch picks the oldest pending row of that stage, and none while a row is in progress. */
  lemma NextPendingFinds(s: RunState)
    ensures NextPending(s).Some? ==>
      !Busy(s) && exists stage :: Starts(s, stage) && Oldest(s.rows, stage, NextPending(s).value)
    ensures NextPending(s).None? ==> Busy(s) || forall stage | Starts(s, stage) :: !PendingIn(s.rows, stage)
  {
    LatestRunningFinds(s.rows);
    var stage := Looks(s);
    FirstPendingFinds(s.rows, stage);
  }
}
