/**
 The stored pipeline run, updated in place.  Every method does what the function of the same
 operation says, whose effect is stated in `RunEffects`.
 */
module StoredRun {
  import opened Values
  import opened Pipeline
  import opened RunEffects

  class PipelineRun {
    var status: RunStatus
    var place: Place
    var execution: nat
    var nextExecution: nat
    var rollbackTo: Option<Stage>
    var request: RequestStatus
    var rows: seq<StageRow>
    var log: seq<LogEntry>
    const digest: Output -> string

    function State(): RunState
      reads this
    {
      RunState(status, place, execution, nextExecution, rollbackTo, request, rows, log)
    }

    constructor (execution: nat, digest: Output -> string)
      ensures State() == Created(execution) && this.digest == digest
      ensures IsNew(State(), execution)
    {
      status, place, rollbackTo, request, log := Queued, At(RequirementAnalysis), None, RequestQueued, [];
      this.execution, nextExecution, this.digest := execution, execution + 1, digest;
      rows := [];
      new;
      for i := 0 to |STAGE_ORDER|
        invariant rows == NewAttempts([], STAGE_ORDER)[..i]
        invariant RunState(status, place, this.execution, nextExecution, rollbackTo, request, [], log)
               == Created(execution).(rows := [])
        invariant this.digest == digest
      {
        rows := rows + [StageRow(STAGE_ORDER[i], 1, Pending, None, None, map[])];
      }
    }

    /** Rolls back every live attempt from `target` on and adds a new pending attempt of each stage. */
    method ReopenFrom(target: Stage)
      modifies this`rows
      ensures rows == ReopenRows(old(rows), target)
    {
      ghost var before := rows;
      for i := 0 to |rows|
        invariant |rows| == |before|
        invariant forall j | 0 <= j < i :: rows[j] == Mark(before, target)[j]
        invariant forall j | i <= j < |rows| :: rows[j] == before[j]
      {
        if Index(rows[i].stage) >= Index(target) && Reopenable(rows[i].status) {
          rows := rows[i := rows[i].(status := RolledBack)];
        }
      }
      var marked := rows;
      assert marked == Mark(before, target);
      var codes := STAGE_ORDER[Index(target)..];
      for i := 0 to |codes|
        invariant rows == marked + NewAttempts(marked, codes)[..i]
      {
        rows := rows + [NewAttempt(marked, codes[i])];
      }
      assert NewAttempts(marked, codes)[..|codes|] == NewAttempts(marked, codes);
    }

    method Redispatch(scheduled: bool)
      modifies this
      ensures State() == Redispatched(old(State()), scheduled)
    {
      execution, nextExecution := nextExecution, nextExecution + 1;
      if !scheduled {
        status, place := Failed, Dispatch;
        log := log + [LogEntry(FailedEntry, None, Unset)];
      }
    }

    method GoBack(target: Stage, scheduled: bool)
      modifies this
      ensures State() == RollBack(old(State()), target, scheduled)
    {
      ReopenFrom(target);
      status, place, rollbackTo := Queued, At(target), Some(target);
      Redispatch(scheduled);
    }

    method SubmitStageReview(r: ReviewRequest, scheduled: bool)
      modifies this
      ensures State() == Reviewed(old(State()), r, digest, scheduled)
    {
      var reviewed := ReviewedStage(State(), r);
      if reviewed.None? { return; }
      var stage := reviewed.value;
      if IsRetry(State(), r) {
        GoBack(if rollbackTo.Some? then rollbackTo.value else stage, scheduled);
        return;
      }
      if !r.approved {
        GoBack(RejectTarget(stage, r.code), scheduled);
        return;
      }
      if stage.DataProcessing? {
        status, place, rollbackTo, request := Completed, At(stage), None, RequestCompleted;
        return;
      }
      var stageRun := Latest(rows, stage);
      if stageRun.None? { return; }
      var p := stageRun.value;
      if stage.RequirementAnalysis? {
        rows := rows[p := rows[p].(output := ApprovedRequirement(rows[p].output, r.deliveryChannel))];
      } else {
        var processing := LatestWith(rows, DataProcessing, Pending);
        if processing.None? { return; }
        var q := processing.value;
        var plan := SnapshotPlan(rows[p].output);
        rows := rows[q := rows[q].(approved := Some(Approval(p, plan, digest(plan))))];
      }
      status, place, rollbackTo := Queued, At(NextStage(stage)), None;
      Redispatch(scheduled);
    }

    method AdminRecover(scheduled: bool)
      modifies this
      ensures State() == AdminRecovered(old(State()), scheduled) && AdminEffect(old(State()), scheduled, State())
    {
      AdminEffects(State(), scheduled);
      ReopenFrom(RequirementAnalysis);
      status, place, rollbackTo := Queued, At(RequirementAnalysis), Some(RequirementAnalysis);
      log := log + [LogEntry(ProgressEntry, None, Unset)];
      Redispatch(scheduled);
    }

    method RecoverStale(stale: bool, limit: int, scheduled: bool)
      modifies this
      ensures State() == WatchdogRecovered(old(State()), stale, limit, scheduled)
    {
      if !status.Running? || !stale { return; }
      var found := LatestRunning(rows);
      if found.None? { return; }
      var p := found.value;
      var stage := rows[p].stage;
      if rows[p].attempt < limit {
        ReopenFrom(stage);
        status, place, rollbackTo := Queued, At(stage), Some(stage);
        log := log + [LogEntry(ProgressEntry, Some(p), Unset)];
        Redispatch(scheduled);
        return;
      }
      rows := rows[p := rows[p].(status := Broken)];
      status, place, request := Failed, At(stage), RequestFailed;
      log := log + [LogEntry(FailedEntry, Some(p), Unset)];
    }

    method PersistStatusEvent(e: Event) returns (accepted: bool)
      modifies this
      ensures accepted == (e.execution == old(execution))
      ensures State() == Persisted(old(State()), e) && EventEffect(old(State()), e, State())
    {
      ghost var before := State();
      if execution != e.execution { return false; }
      var row := EventRow(State(), e);
      status, place, rollbackTo, request := e.status, e.place, e.rollbackTo, RequestAfter(e.status);
      if row.Some? {
        var p := row.value;
        rows := rows[p := rows[p].(status := e.stageStatus.value)];
        if e.stageStatus.value.Done? || e.stageStatus.value.Broken? {
          rows := rows[p := rows[p].(output := e.result)];
        }
      }
      log := log + [LogEntry(if e.status.Failed? then FailedEntry else ProgressEntry, row, e.place)];
      accepted := true;
      assert State() == Persisted(before, e);
      EventEffects(before, e);
    }

    method RecordAgentLog(execution: nat, row: Option<nat>, place: Place)
      modifies this`log
      ensures State() == Logged(old(State()), execution, row, place)
      ensures LogEffect(old(State()), execution, row, place, State())
    {
      if execution != this.execution { return; }
      log := log + [LogEntry(AgentLogEntry, row, place)];
    }
  }
}
