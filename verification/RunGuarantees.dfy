/**
 Two guarantees about whole runs: automatic recovery is bounded, and whatever a superseded
 execution still sends has no effect.
 */
module RunGuarantees {
  import opened Values
  import opened Pipeline
  import opened StageAttempts
  import opened PipelineHistory

  // ----- bounded automatic recovery -----

  predicate Recovery(c: Config, w: World, a: Action) { a.Watchdog? && Recovers(w.run, a.stale, c.limit) }

  /** How many steps of a history are watchdog recoveries. */
  function Recoveries(c: Config, w: World, history: seq<Action>): nat
    decreases |history|
  {
    if history == [] then 0
    else (if Recovery(c, w, history[0]) then 1 else 0) + Recoveries(c, Step(c, w, history[0]), history[1..])
  }

  function Room(limit: int, used: nat): nat { if used < limit then limit - used else 0 }

  function TotalRoom(limit: int, rows: seq<StageRow>): nat {
    Room(limit, Count(rows, RequirementAnalysis)) + Room(limit, Count(rows, DataSelection))
      + Room(limit, Count(rows, DataProcessing))
  }

  /** A step re-opens a suffix of stages or keeps every row's stage, number and predecessor. */
  lemma StepRows(c: Config, w: World, a: Action)
    ensures SameSkeleton(w.run.rows, Step(c, w, a).run.rows)
      || (exists target :: Step(c, w, a).run.rows == ReopenRows(w.run.rows, target))
  {
    match a {
      case Review(r, scheduled) => ReviewRows(w.run, r, c.digest, scheduled);
      case Admin(scheduled) => assert Step(c, w, a).run.rows == ReopenRows(w.run.rows, RequirementAnalysis);
      case Watchdog(stale, scheduled) => WatchdogRows(w.run, stale, c.limit, scheduled);
      case _ =>
    }
  }

  lemma ReviewRows(s: RunState, r: ReviewRequest, digest: Output -> string, scheduled: bool)
    ensures SameSkeleton(s.rows, Reviewed(s, r, digest, scheduled).rows)
      || (exists target :: Reviewed(s, r, digest, scheduled).rows == ReopenRows(s.rows, target))
  {
    var stage := ReviewedStage(s, r);
    if stage.Some? && IsRetry(s, r) {
      assert Reviewed(s, r, digest, scheduled).rows == ReopenRows(s.rows, stage.value);
    } else if stage.Some? && !r.approved {
      assert Reviewed(s, r, digest, scheduled).rows == ReopenRows(s.rows, RejectTarget(stage.value, r.code));
    }
  }

  lemma WatchdogRows(s: RunState, stale: bool, limit: int, scheduled: bool)
    ensures SameSkeleton(s.rows, WatchdogRecovered(s, stale, limit, scheduled).rows)
      || (exists target :: WatchdogRecovered(s, stale, limit, scheduled).rows == ReopenRows(s.rows, target))
  {
    if Recovers(s, stale, limit) {
      assert WatchdogRecovered(s, stale, limit, scheduled).rows
           == ReopenRows(s.rows, s.rows[LatestRunning(s.rows).value].stage);
    }
  }

  /** What re-opening from a stage does to every stage. */
  lemma ReopenCounts(rows: seq<StageRow>, target: Stage, stage: Stage)
    requires Attempts(rows)
    ensures Attempts(ReopenRows(rows, target))
    ensures Count(ReopenRows(rows, target), stage)
         == Count(rows, stage) + if Index(target) <= Index(stage) then 1 else 0
    ensures Newest(ReopenRows(rows, target), stage).status
         == if Index(target) <= Index(stage) then Pending else Newest(rows, stage).status
  {
    ReopenKeeps(rows, target);
    LatestIsNewest(rows, stage);
    assert Reopened(rows, target, ReopenRows(rows, target), stage);
  }

  /** No step removes an attempt. */
  lemma CountsGrow(c: Config, w: World, a: Action, stage: Stage)
    requires Attempts(w.run.rows)
    ensures Count(w.run.rows, stage) <= Count(Step(c, w, a).run.rows, stage)
  {
    StepRows(c, w, a);
    var before, after := w.run.rows, Step(c, w, a).run.rows;
    if SameSkeleton(before, after) {
      SkeletonQueries(before, after, stage);
    } else {
      var target :| after == ReopenRows(before, target);
      ReopenCounts(before, target, stage);
    }
  }

  /** A recovery re-opens from a stage in progress that has not used up the limit. */
  lemma RecoveryReopens(c: Config, w: World, a: Action) returns (stage: Stage)
    requires Attempts(w.run.rows) && Recovery(c, w, a)
    ensures Step(c, w, a).run.rows == ReopenRows(w.run.rows, stage)
    ensures Newest(w.run.rows, stage).status == InProgress && Count(w.run.rows, stage) < c.limit
    ensures LatestRunning(w.run.rows).Some? && w.run.rows[LatestRunning(w.run.rows).value].stage == stage
    ensures Step(c, w, a).phase.Scheduled? || Step(c, w, a).phase.Idle?
      || Step(c, w, a).run.execution == w.run.execution
  {
    var rows, p := w.run.rows, LatestRunning(w.run.rows).value;
    stage := rows[p].stage;
    LatestIsNewest(rows, stage);
  }

  lemma StepUsesRoom(c: Config, w: World, a: Action)
    requires Attempts(w.run.rows)
    ensures TotalRoom(c.limit, Step(c, w, a).run.rows) + (if Recovery(c, w, a) then 1 else 0)
      <= TotalRoom(c.limit, w.run.rows)
  {
    CountsGrow(c, w, a, RequirementAnalysis);
    CountsGrow(c, w, a, DataSelection);
    CountsGrow(c, w, a, DataProcessing);
    if Recovery(c, w, a) {
      var stage := RecoveryReopens(c, w, a);
      ReopenCounts(w.run.rows, stage, stage);
    }
  }

  lemma {:induction false} RecoveriesUseRoom(c: Config, w: World, history: seq<Action>)
    requires Attempts(w.run.rows)
    ensures Recoveries(c, w, history) <= TotalRoom(c.limit, w.run.rows)
    decreases |history|
  {
    if history != [] {
      StepKeepsAttempts(c, w, history[0]);
      StepUsesRoom(c, w, history[0]);
      RecoveriesUseRoom(c, Step(c, w, history[0]), history[1..]);
    }
  }

  /** Whatever humans, admins and agents do, the watchdog restarts a run at most 3(limit - 1) times. */
  lemma RecoveryIsBounded(c: Config, execution: nat, history: seq<Action>)
    ensures Recoveries(c, Initial(execution), history) <= 3 * Room(c.limit, 1)
  {
    CreatedAttempts(execution);
    RecoveriesUseRoom(c, Initial(execution), history);
  }

  /** A review that approves, or is refused; no admin recovery. */
  predicate GoesForward(w: World, a: Action) {
    match a
    case Review(r, _) => ReviewedStage(w.run, r).None? || (!IsRetry(w.run, r) && r.approved)
    case Admin(_) => false
    case _ => true
  }

  predicate ForwardOnly(c: Config, w: World, history: seq<Action>)
    decreases |history|
  {
    history == [] ||
    (Enabled(w, history[0]) && GoesForward(w, history[0]) && ForwardOnly(c, Step(c, w, history[0]), history[1..]))
  }

  /** Every stage that is not done has as many attempts as the last one. */
  predicate LevelRows(rows: seq<StageRow>)
    requires Attempts(rows)
  {
    && (Newest(rows, RequirementAnalysis).status != Done ==>
      Count(rows, RequirementAnalysis) == Count(rows, DataProcessing))
    && (Newest(rows, DataSelection).status != Done ==> Count(rows, DataSelection) == Count(rows, DataProcessing))
  }

  predicate Level(w: World) {
    && Attempts(w.run.rows) && LevelRows(w.run.rows)
    && (w.phase.Prepared? || w.phase.Started? ==> Newest(w.run.rows, w.phase.stage).status != Done)
    && Fresh(w)
  }

  lemma ReopenLevel(rows: seq<StageRow>, stage: Stage)
    requires Attempts(rows) && LevelRows(rows) && Newest(rows, stage).status != Done && Shape(rows, stage)
    ensures Attempts(ReopenRows(rows, stage)) && LevelRows(ReopenRows(rows, stage))
    ensures Count(rows, DataProcessing) == Count(rows, stage)
    ensures Count(ReopenRows(rows, stage), DataProcessing) == Count(rows, DataProcessing) + 1
  {
    ReopenCounts(rows, stage, RequirementAnalysis);
    ReopenCounts(rows, stage, DataSelection);
    ReopenCounts(rows, stage, DataProcessing);
  }

  lemma RecoveryLevel(c: Config, w: World, a: Action)
    requires Level(w) && Recovery(c, w, a) && Inv(c, w)
    ensures Level(Step(c, w, a))
    ensures Count(w.run.rows, DataProcessing) < c.limit
    ensures Count(Step(c, w, a).run.rows, DataProcessing) == Count(w.run.rows, DataProcessing) + 1
  {
    var front :| InvAt(c, w, front);
    RunningIsFront(c, w, front);
    var stage := RecoveryReopens(c, w, a);
    ReopenLevel(w.run.rows, stage);
    StepFreshness(c, w, a);
  }

  /** Changing what one unfinished newest row holds. */
  lemma UpdateLevel(rows: seq<StageRow>, p: nat, row: StageRow)
    requires Attempts(rows) && LevelRows(rows) && p < |rows| && Latest(rows, rows[p].stage) == Some(p)
    requires row.stage == rows[p].stage && row.attempt == rows[p].attempt && row.retryOf == rows[p].retryOf
    requires rows[p].status != Done || row.status == Done
    ensures Attempts(rows[p := row]) && LevelRows(rows[p := row])
    ensures Newest(rows[p := row], row.stage) == row
    ensures forall stage | stage != row.stage :: Newest(rows[p := row], stage) == Newest(rows, stage)
    ensures Count(rows[p := row], DataProcessing) == Count(rows, DataProcessing)
  {
    UpdateKeeps(rows, p, row);
    LatestIsNewest(rows, RequirementAnalysis);
    LatestIsNewest(rows, DataSelection);
    LatestIsNewest(rows, DataProcessing);
  }

  /** The row an event of the current execution is about. */
  lemma EventUpdates(c: Config, w: World, a: Action) returns (p: nat)
    requires Level(w) && Enabled(w, a) && (a.DispatchNext? || a.Progress? || a.Finish? || a.Fail?)
    requires Step(c, w, a).run.rows != w.run.rows
    ensures var rows := Step(c, w, a).run.rows;
      && p < |w.run.rows| == |rows| && rows == w.run.rows[p := rows[p]]
      && Latest(w.run.rows, w.run.rows[p].stage) == Some(p) && w.run.rows[p].status != Done
      && rows[p].stage == w.run.rows[p].stage && rows[p].attempt == w.run.rows[p].attempt
      && rows[p].retryOf == w.run.rows[p].retryOf
      && (Step(c, w, a).phase.Idle? || (Step(c, w, a).phase.stage == rows[p].stage && rows[p].status != Done))
  {
    var rows := w.run.rows;
    var stage := if a.DispatchNext? then rows[NextPending(w.run).value].stage else w.phase.stage;
    LatestIsNewest(rows, stage);
    p := Latest(rows, stage).value;
  }

  lemma EventLevel(c: Config, w: World, a: Action)
    requires Level(w) && Enabled(w, a) && (a.DispatchNext? || a.Progress? || a.Finish? || a.Fail?)
    ensures Level(Step(c, w, a)) && Count(Step(c, w, a).run.rows, DataProcessing) == Count(w.run.rows, DataProcessing)
  {
    StepFreshness(c, w, a);
    if Step(c, w, a).run.rows != w.run.rows {
      var p := EventUpdates(c, w, a);
      UpdateLevel(w.run.rows, p, Step(c, w, a).run.rows[p]);
    } else if a.DispatchNext? && NextPending(w.run).Some? {
      LiveQueries(w.run.rows, w.run.rows[NextPending(w.run).value].stage);
    }
  }

  /** Approving changes a payload, never a status. */
  lemma ApprovalKeepsStatus(rows: seq<StageRow>, stage: Stage, channel: Option<string>, digest: Output -> string)
    requires !stage.DataProcessing? && ApprovedRows(rows, stage, channel, digest).Some?
    ensures var after := ApprovedRows(rows, stage, channel, digest).value;
      SameSkeleton(rows, after) && forall i | 0 <= i < |rows| :: after[i].status == rows[i].status
  {}

  lemma SameStatusLevel(rows: seq<StageRow>, after: seq<StageRow>)
    requires Attempts(rows) && LevelRows(rows) && SameSkeleton(rows, after)
    requires forall i | 0 <= i < |rows| :: after[i].status == rows[i].status
    ensures Attempts(after) && LevelRows(after) && Count(after, DataProcessing) == Count(rows, DataProcessing)
    ensures forall stage :: Newest(after, stage).status == Newest(rows, stage).status
  {
    SkeletonKeeps(rows, after);
    forall stage
      ensures Latest(rows, stage).Some? && Latest(after, stage) == Latest(rows, stage)
      ensures Count(after, stage) == Count(rows, stage)
    {
      SkeletonQueries(rows, after, stage);
      LatestIsNewest(rows, stage);
    }
  }

  lemma ReviewLevel(c: Config, w: World, a: Action)
    requires Level(w) && GoesForward(w, a) && a.Review?
    ensures Level(Step(c, w, a)) && Count(Step(c, w, a).run.rows, DataProcessing) == Count(w.run.rows, DataProcessing)
  {
    StepFreshness(c, w, a);
    var stage := ReviewedStage(w.run, a.request);
    if stage.Some? && !stage.value.DataProcessing? {
      var approved := ApprovedRows(w.run.rows, stage.value, a.request.deliveryChannel, c.digest);
      if approved.Some? {
        ApprovalKeepsStatus(w.run.rows, stage.value, a.request.deliveryChannel, c.digest);
        SameStatusLevel(w.run.rows, approved.value);
      }
    }
  }

  lemma ExhaustedLevel(c: Config, w: World, a: Action)
    requires Level(w) && a.Watchdog? && !Recovery(c, w, a)
    ensures Level(Step(c, w, a)) && Count(Step(c, w, a).run.rows, DataProcessing) == Count(w.run.rows, DataProcessing)
  {
    var rows, p := w.run.rows, StaleRow(w.run, a.stale);
    if p.Some? {
      UpdateLevel(rows, p.value, rows[p.value].(status := Broken));
    }
  }

  lemma ForwardLevel(c: Config, w: World, a: Action)
    requires Level(w) && Enabled(w, a) && GoesForward(w, a) && !Recovery(c, w, a)
    ensures Level(Step(c, w, a)) && Count(Step(c, w, a).run.rows, DataProcessing) == Count(w.run.rows, DataProcessing)
  {
    if a.Review? {
      ReviewLevel(c, w, a);
    } else if a.Watchdog? {
      ExhaustedLevel(c, w, a);
    } else if !a.Foreign? && !a.AgentLog? {
      EventLevel(c, w, a);
    }
  }

  lemma {:induction false} ForwardRecoveries(c: Config, w: World, history: seq<Action>)
    requires Inv(c, w) && Level(w) && ForwardOnly(c, w, history)
    ensures Recoveries(c, w, history) <= Room(c.limit, Count(w.run.rows, DataProcessing))
    decreases |history|
  {
    if history != [] {
      var a := history[0];
      StepInv(c, w, a);
      if Recovery(c, w, a) { RecoveryLevel(c, w, a); } else { ForwardLevel(c, w, a); }
      ForwardRecoveries(c, Step(c, w, a), history[1..]);
    }
  }

  /** When nobody rolls the run back, it is restarted at most limit - 1 times, whichever stages stall. */
  lemma ForwardRecoveryIsBounded(c: Config, execution: nat, history: seq<Action>)
    requires ForwardOnly(c, Initial(execution), history)
    ensures Recoveries(c, Initial(execution), history) <= Room(c.limit, 1)
  {
    CreatedAttempts(execution);
    InitialInv(c, execution);
    ForwardRecoveries(c, Initial(execution), history);
  }

  // ----- fencing -----

  predicate Fresh(w: World) { w.run.execution < w.run.nextExecution }

  /** A step keeps the execution or starts one never used before, and always the latter when it adds attempts. */
  lemma StepFreshness(c: Config, w: World, a: Action)
    requires Fresh(w)
    ensures var next := Step(c, w, a);
      && Fresh(next) && w.run.nextExecution <= next.run.nextExecution
      && (next.run.execution == w.run.execution || next.run.execution == w.run.nextExecution)
      && (|next.run.rows| != |w.run.rows| ==> next.run.execution == w.run.nextExecution)
  {}

  /** A status event or log line of one of these executions. */
  predicate SentBy(a: Action, dead: set<nat>) {
    match a
    case Foreign(e) => e.execution in dead
    case AgentLog(execution, _, _) => execution in dead
    case _ => false
  }

  function Without(history: seq<Action>, dead: set<nat>): seq<Action> {
    if history == [] then [] else
      (if SentBy(history[0], dead) then Without(history[1..], dead) else [history[0]] + Without(history[1..], dead))
  }

  /** Executions that are over: used before, and not the current one. */
  predicate Superseded(w: World, dead: set<nat>) {
    forall x | x in dead :: x < w.run.nextExecution && x != w.run.execution
  }

  /**
   Deleting everything superseded executions send, at any later time, leaves the final run, its
   attempts, the request status and the event log unchanged.
   */
  lemma {:induction false} SupersededExecutionsHaveNoEffect(c: Config, w: World, history: seq<Action>, dead: set<nat>)
    requires Fresh(w) && Superseded(w, dead)
    ensures After(c, w, Without(history, dead)) == After(c, w, history)
    decreases |history|
  {
    if history != [] {
      var a, next := history[0], Step(c, w, history[0]);
      StepFreshness(c, w, a);
      SupersededExecutionsHaveNoEffect(c, next, history[1..], dead);
      if SentBy(a, dead) {
        assert next == w;
      } else {
        assert Without(history, dead)[1..] == Without(history[1..], dead);
      }
    }
  }

  /** Every restart makes the execution before it one of those. */
  lemma RestartSupersedes(c: Config, w: World, a: Action)
    requires Fresh(w) && Step(c, w, a).run.execution != w.run.execution
    ensures Superseded(Step(c, w, a), {w.run.execution})
  {
    StepFreshness(c, w, a);
  }
}
