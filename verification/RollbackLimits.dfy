/**
 Exactly when going back keeps the promise of `PipelineHistory.ApprovedPlanAlwaysLinked`: the code
 of a rejection can send a run to processing whose plan nobody approved, and a failure would break
 the promise only with a code that no stage emits.
 */
module RollbackLimits {
  import opened Values
  import opened Pipeline
  import opened StageAttempts
  import opened PipelineHistory

  // ----- rejections -----

  /** A run sent to processing from an earlier gate has no approval of its newest selection. */
  lemma UnsafeRejection(c: Config, w: World, front: Stage, r: ReviewRequest)
    requires InvAt(c, w, front) && GateStage(w.run.status) == Some(front) && !r.approved
    requires !SafeRejection(front, r.code)
    ensures !PlanLinked(c, Step(c, w, Review(r, true)).run)
  {
    var before, rows := w.run.rows, ReopenRows(w.run.rows, DataProcessing);
    var run := Step(c, w, Review(r, true)).run;
    assert run.rows == rows && run.place == At(DataProcessing);
    ReopenKeeps(before, DataProcessing);
    LatestIsNewest(before, DataSelection);
    LatestIsNewest(before, DataProcessing);
    assert Reopened(before, DataProcessing, rows, DataSelection);
    assert Reopened(before, DataProcessing, rows, DataProcessing);
    NoApproval(c, before, rows, front);
  }

  /** Before processing is the front, re-opening it finds the selection open or not the approved one. */
  lemma NoApproval(c: Config, before: seq<StageRow>, rows: seq<StageRow>, front: Stage)
    requires Attempts(before) && Attempts(rows) && !front.DataProcessing?
    requires Shape(before, front) && Linked(c, before, front)
    requires Reopened(before, DataProcessing, rows, DataSelection)
    requires Reopened(before, DataProcessing, rows, DataProcessing)
    ensures Latest(rows, DataSelection).Some?
    ensures !ApprovesRow(c, rows, Newest(rows, DataProcessing).approved, Latest(rows, DataSelection).value)
  {}

  /**
   A rejection at a gate that is scheduled keeps the promise exactly when its target is not processing
   or the gate is the final one.
   */
  lemma RejectionKeepsPromiseIff(c: Config, w: World, front: Stage, r: ReviewRequest)
    requires InvAt(c, w, front) && GateStage(w.run.status) == Some(front) && !r.approved
    ensures PlanLinked(c, Step(c, w, Review(r, true)).run) <==> SafeRejection(front, r.code)
  {
    if SafeRejection(front, r.code) {
      ReviewInv(c, w, front, r, true);
      InvLinks(c, Step(c, w, Review(r, true)));
    } else {
      UnsafeRejection(c, w, front, r);
    }
  }

  /** The first stage runs and completes. */
  function FirstGate(): seq<Action> { [DispatchNext, Progress, Finish(map[])] }

  function BadRejection(): ReviewRequest { ReviewRequest(false, false, Some(FormatInvalid), None) }

  lemma ThreeSteps(c: Config, w: World, a: Action, b: Action, d: Action)
    ensures After(c, w, [a, b, d]) == Step(c, Step(c, Step(c, w, a), b), d)
    ensures Legal(c, w, [a, b, d]) <==>
      && Enabled(w, a) && SafeReview(w, a)
      && Enabled(Step(c, w, a), b) && SafeReview(Step(c, w, a), b)
      && Enabled(Step(c, Step(c, w, a), b), d) && SafeReview(Step(c, Step(c, w, a), b), d)
  {
    assert [a, b, d][1..] == [b, d] && [b, d][1..] == [d] && [d][1..] == [];
    var w1 := Step(c, w, a);
    var w2 := Step(c, w1, b);
    assert After(c, w2, [d]) == Step(c, w2, d) && (Legal(c, w2, [d]) <==> Enabled(w2, d) && SafeReview(w2, d));
    assert After(c, w1, [b, d]) == After(c, w2, [d]);
  }

  lemma FirstGateReached(c: Config, execution: nat)
    ensures Legal(c, Initial(execution), FirstGate())
    ensures var w := After(c, Initial(execution), FirstGate());
      InvAt(c, w, RequirementAnalysis) && w.run.status == WaitingRequirementReview
  {
    ThreeSteps(c, Initial(execution), DispatchNext, Progress, Finish(map[]));
    var w1 := FirstDispatch(c, execution);
    var w2 := Step(c, w1, Progress);
    EventInv(c, w1, RequirementAnalysis, Progress);
    EventInv(c, w2, RequirementAnalysis, Finish(map[]));
  }

  lemma FirstDispatch(c: Config, execution: nat) returns (w: World)
    ensures w == Step(c, Initial(execution), DispatchNext)
    ensures InvAt(c, w, RequirementAnalysis) && w.phase == Prepared(RequirementAnalysis)
  {
    InitialInv(c, execution);
    DispatchFindsCurrent(c, Initial(execution), RequirementAnalysis);
    DispatchInv(c, Initial(execution), RequirementAnalysis);
    w := Step(c, Initial(execution), DispatchNext);
  }

  /** A run whose first review rejects with a format error goes to processing with no approved plan. */
  lemma FormatRejectionUnlinks(c: Config, execution: nat)
    ensures !PlanLinked(c, Step(c, After(c, Initial(execution), FirstGate()), Review(BadRejection(), true)).run)
  {
    FirstGateReached(c, execution);
    UnsafeRejection(c, After(c, Initial(execution), FirstGate()), RequirementAnalysis, BadRejection());
  }

  // ----- failures -----

  /** The run after a failure of the started stage and the user's scheduled retry. */
  function Retried(c: Config, w: World, code: Option<FailureCode>, result: Output, r: ReviewRequest): World {
    Step(c, Step(c, w, Fail(code, result)), Review(r, true))
  }

  lemma FailureBreaks(c: Config, w: World, front: Stage, code: Option<FailureCode>, result: Output)
    requires InvAt(c, w, front) && w.phase.Started?
    ensures var rows := Step(c, w, Fail(code, result)).run.rows; Attempts(rows) && Newest(rows, front).status == Broken
    ensures w.phase.stage == front
  {
    FrontEventInv(c, w, front, Broken, result, Step(c, w, Fail(code, result)).run);
  }

  lemma RetryRollsBack(c: Config, w: World, code: Option<FailureCode>, result: Output, r: ReviewRequest)
    requires w.phase.Started? && r.retry
    ensures var run := Retried(c, w, code, result, r).run; var target := FailureRollback(w.phase.stage, code);
      run.rows == ReopenRows(Step(c, w, Fail(code, result)).run.rows, target) && run.place == At(target)
  {}

  /** Re-opening behind a broken stage leaves it broken. */
  lemma BrokenBehind(rows: seq<StageRow>, front: Stage, target: Stage)
    requires Attempts(rows) && Newest(rows, front).status == Broken && Index(front) < Index(target)
    ensures Attempts(ReopenRows(rows, target)) && !Shape(ReopenRows(rows, target), target)
  {
    ReopenKeeps(rows, target);
    LatestIsNewest(rows, front);
    assert Reopened(rows, target, ReopenRows(rows, target), front);
  }

  lemma EarlierRetry(c: Config, w: World, front: Stage, code: Option<FailureCode>, result: Output, r: ReviewRequest)
    requires InvAt(c, w, front) && w.phase.Started? && r.retry && Index(FailureRollback(front, code)) <= Index(front)
    ensures PlanLinked(c, Retried(c, w, code, result, r).run)
  {
    EventInv(c, w, front, Fail(code, result));
    ReviewInv(c, Step(c, w, Fail(code, result)), front, r, true);
    InvLinks(c, Retried(c, w, code, result, r));
  }

  /**
   Whatever code a failure carries, the scheduled retry after it keeps the promise exactly when the
   code names no later stage; by `EmittedGoesBack` no stage emits such a code.
   */
  lemma RetryKeepsPromiseIff(
    c: Config, w: World, front: Stage, code: Option<FailureCode>, result: Output, r: ReviewRequest)
    requires InvAt(c, w, front) && w.phase.Started? && r.retry
    ensures PlanLinked(c, Retried(c, w, code, result, r).run) <==> Index(FailureRollback(front, code)) <= Index(front)
  {
    if Index(FailureRollback(front, code)) <= Index(front) {
      EarlierRetry(c, w, front, code, result, r);
    } else {
      FailureBreaks(c, w, front, code, result);
      RetryRollsBack(c, w, code, result, r);
      BrokenBehind(Step(c, w, Fail(code, result)).run.rows, front, FailureRollback(front, code));
    }
  }
}
