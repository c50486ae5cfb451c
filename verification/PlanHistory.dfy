/**
 Whose plan is processed: over a whole run, the plan approved for processing is the one in the result
 with which the selection stage last finished.
 */
module PlanHistory {
  import opened Values
  import opened Pipeline
  import opened StageAttempts
  import opened PipelineHistory
  import RunEffects

  /** The result of the selection stage after this action. */
  function Delivered(w: World, a: Action, last: Option<Output>): Option<Output> {
    if a.Finish? && w.phase == Started(DataSelection) then Some(a.result) else last
  }

  /** The result with which the selection stage last finished. */
  function LastSelection(c: Config, w: World, history: seq<Action>, last: Option<Output>): Option<Output>
    decreases |history|
  {
    if history == [] then last
    else LastSelection(c, Step(c, w, history[0]), history[1..], Delivered(w, history[0], last))
  }

  /** A finished selection holds that result. */
  predicate Holds(rows: seq<StageRow>, last: Option<Output>) {
    Attempts(rows) ==>
      var row := Newest(rows, DataSelection); row.status == Done ==> last == Some(row.output)
  }

  lemma UpdateHolds(rows: seq<StageRow>, p: nat, row: StageRow, last: Option<Output>, now: Option<Output>)
    requires Attempts(rows) && Holds(rows, last) && p < |rows|
    requires row.stage == rows[p].stage && row.attempt == rows[p].attempt && row.retryOf == rows[p].retryOf
    requires row.status == rows[p].status || Latest(rows, rows[p].stage) == Some(p)
    requires if row.stage.DataSelection? && Latest(rows, DataSelection) == Some(p)
             then row.status == Done ==> now == Some(row.output) else now == last
    ensures Holds(rows[p := row], now)
  {
    UpdateKeeps(rows, p, row);
    LatestIsNewest(rows, DataSelection);
  }

  lemma ReopenHolds(rows: seq<StageRow>, target: Stage, last: Option<Output>)
    requires Attempts(rows) && Holds(rows, last)
    ensures Holds(ReopenRows(rows, target), last)
  {
    ReopenedNewest(rows, target, DataSelection);
  }

  /** An event of a stage: a finished selection now holds its result, nothing else changes what is held. */
  lemma EventHolds(s: RunState, e: Event, last: Option<Output>)
    requires Attempts(s.rows) && Holds(s.rows, last)
    ensures Holds(EventRows(s, e),
      if e.place == At(DataSelection) && e.stageStatus == Some(Done) then Some(e.result) else last)
  {
    var now := if e.place == At(DataSelection) && e.stageStatus == Some(Done) then Some(e.result) else last;
    match EventRow(s, e) {
      case None =>
        if e.place == At(DataSelection) && e.stageStatus.Some? { LatestIsNewest(s.rows, DataSelection); }
      case Some(p) =>
        UpdateHolds(s.rows, p, EventRows(s, e)[p], last, now);
        assert EventRows(s, e) == s.rows[p := EventRows(s, e)[p]];
    }
  }

  lemma ReviewHolds(c: Config, s: RunState, r: ReviewRequest, scheduled: bool, last: Option<Output>)
    requires Attempts(s.rows) && Holds(s.rows, last)
    ensures Holds(Reviewed(s, r, c.digest, scheduled).rows, last)
  {
    forall target ensures Holds(ReopenRows(s.rows, target), last) { ReopenHolds(s.rows, target, last); }
    match GateStage(s.status) {
      case Some(RequirementAnalysis) => ApprovalHolds(c, s.rows, RequirementAnalysis, r.deliveryChannel, last);
      case Some(DataSelection) => ApprovalHolds(c, s.rows, DataSelection, r.deliveryChannel, last);
      case _ =>
    }
  }

  lemma ApprovalHolds(c: Config, rows: seq<StageRow>, stage: Stage, channel: Option<string>, last: Option<Output>)
    requires Attempts(rows) && Holds(rows, last) && !stage.DataProcessing?
    ensures var after := ApprovedRows(rows, stage, channel, c.digest); after.Some? ==> Holds(after.value, last)
  {
    var after, p, q := ApprovedRows(rows, stage, channel, c.digest), Latest(rows, stage),
                       LatestWith(rows, DataProcessing, Pending);
    if after.Some? {
      if stage.RequirementAnalysis? {
        UpdateHolds(rows, p.value, after.value[p.value], last, last);
      } else {
        UpdateHolds(rows, q.value, after.value[q.value], last, last);
      }
    }
  }

  lemma WatchdogHolds(s: RunState, stale: bool, limit: int, scheduled: bool, last: Option<Output>)
    requires Attempts(s.rows) && Holds(s.rows, last)
    ensures Holds(WatchdogRecovered(s, stale, limit, scheduled).rows, last)
  {
    var p := StaleRow(s, stale);
    if p.Some? {
      if Recovers(s, stale, limit) {
        ReopenHolds(s.rows, s.rows[p.value].stage, last);
      } else {
        UpdateHolds(s.rows, p.value, s.rows[p.value].(status := Broken), last, last);
      }
    }
  }

  lemma StepHolds(c: Config, w: World, a: Action, last: Option<Output>)
    requires Attempts(w.run.rows) && Holds(w.run.rows, last) && Enabled(w, a)
    ensures Holds(Step(c, w, a).run.rows, Delivered(w, a, last))
  {
    forall e ensures Holds(EventRows(w.run, e),
      if e.place == At(DataSelection) && e.stageStatus == Some(Done) then Some(e.result) else last)
    {
      EventHolds(w.run, e, last);
    }
    match a {
      case Review(r, scheduled) => ReviewHolds(c, w.run, r, scheduled, last);
      case Admin(scheduled) => ReopenHolds(w.run.rows, RequirementAnalysis, last);
      case Watchdog(stale, scheduled) => WatchdogHolds(w.run, stale, c.limit, scheduled, last);
      case _ =>
    }
  }

  lemma {:induction false} HistoryHolds(c: Config, w: World, history: seq<Action>, last: Option<Output>)
    requires Inv(c, w) && Legal(c, w, history) && Holds(w.run.rows, last)
    ensures Inv(c, After(c, w, history))
    ensures Holds(After(c, w, history).run.rows, LastSelection(c, w, history, last))
    decreases |history|
  {
    if history != [] {
      StepInv(c, w, history[0]);
      StepHolds(c, w, history[0], last);
      HistoryHolds(c, Step(c, w, history[0]), history[1..], Delivered(w, history[0], last));
    }
  }

  /**
   Whenever a legal run is in processing, the plan approved for its newest processing attempt is the
   plan in the result with which the selection stage last finished.
   */
  lemma ApprovedPlanIsSelected(c: Config, execution: nat, history: seq<Action>)
    requires Legal(c, Initial(execution), history)
    requires After(c, Initial(execution), history).run.place == At(DataProcessing)
    ensures var rows := After(c, Initial(execution), history).run.rows;
            var last := LastSelection(c, Initial(execution), history, None);
      && Attempts(rows) && last.Some? && Newest(rows, DataProcessing).approved.Some?
      && RunEffects.PlanOf(last.value, Newest(rows, DataProcessing).approved.value.plan)
  {
    InitialInv(c, execution);
    CreatedAttempts(execution);
    assert Holds(Initial(execution).run.rows, None);
    HistoryHolds(c, Initial(execution), history, None);
    ApprovedPlanAlwaysLinked(c, execution, history);
  }
}
