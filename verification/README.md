# A verified model of the data-request service

The repository turns a request for data into a delivered file: an agent selects columns, another
plans the processing, people review each stage, and the service queries, processes and streams
the results.  This project models the parts of it whose correctness is not visible from one
function, and proves what they promise.

- **Processing plans** (`Values`, `ProcessingPlan`, `Expressions`, `Aggregation`, `Processor`,
  `OperationOrder`).  A plan is checked by following the set of columns through its operations,
  ordered by dependencies, and executed over rows.  `Lineage` proves the check sound for the
  executor and `LineageLimits` exactly when, `Confluence` and `Reordering` that ordering preserves
  meaning, `WindowProofs` that window aggregation is its definition, `WindowDelivery` when it delivers
  what the check promised.  `PlanMeaning` says what the check accepts, `ExpressionMeaning` what an
  expression computes, `MetricMeaning`, `RowMeaning`, `OperationMeaning` and `ExecutionMeaning` what
  each operation makes of a table.
- **Pipeline runs** (`Pipeline`, `StoredRun`).  A run with its stage attempts under reviews, recoveries
  and status events.  Class `PipelineRun` assigns the fields; functions on `RunState` specify every
  method, and `RunEffects` states each operation's effect outright.  `StageAttempts`, `PipelineHistory`
  and `PlanHistory` prove what every history keeps, `RollbackLimits` which rejections would break it,
  `RunGuarantees` that automatic recovery is bounded and superseded executions have no effect.
- **Data selection** (`SelectionRetry`, `DerivationSpec`, `SelectionContract`, `PrivacySelection`).
  `AttemptTrace` states on the requests what a step asks and concludes, `SelectionRetry` proves the run
  split into one invocation per attempt equal to the uncut loop.  `DerivationMeaning` and
  `DerivationForms` prove that the normaliser keeps what an expression means, `ContractMeaning` what the
  contract leaves of a design, `DerivationFixpoint` and `SelectionFixpoint` that both have nothing to do
  a second time.
- **Queries** (`QueryRegistry`, `SelectionQuery`, `QueryExecutor`).  `SelectionMeaning` says which plans
  are accepted and what they take over, `PrivacyMeaning` what they never name, `JoinMeaning` and
  `StatementMeaning` exactly which rows the statement returns, with SQL's three-valued logic,
  `KAnonymity` and `WeekdayCoverage` which column choices the minimum group size covers.
- **Event stream** (`EventStream`).  `StreamMeaning` says what a connection sends, `EventDelivery` what a
  client receives over any number of them.
- **Personal information** (`PiiScan`, `PiiMeaning`, `Luhn`).  Overlap resolution, the reported
  detections, and the check digit of ISO/IEC 7812-1, Annex B.

Python objects updated in place are classes or loops in methods, each proved equal to a
specification function.  What those functions compute is stated a second time by the modules of
meaning, trace and effect named above, on inputs and results alone.  Conversions whose rules are text or
calendar matters (`str`, `repr`, `float` of a text, dates, medians, number formatting, digests, the
model's replies, SQL comparison of a filter with a column) are function parameters.

Some promises hold only under a condition; the project states it exactly:

- The plan check accepts four kinds of operation that it does not describe rightly: a target column on
  cast, fill, deduplicate or sort, which creates nothing; a metric without a column; an aggregation
  whose target is no text, checked by its `str` and stored under itself; a window target that is one
  of the group columns.  On every other accepted operation the check is sound
  (`LineageLimits.DisciplineIff`, failing plans in `PhantomTargetMisses`, `OddTargetMisses` and
  `WindowProofs.OverwrittenKeyIsLost`).
- A window whose metric names its column or target by a value that is no text runs through and attaches
  something else than promised (`WindowDelivery.WindowDeliversIff`).
- The code of a rejection can send a run from an earlier gate to processing, past the approval
  (`RollbackLimits.RejectionKeepsPromiseIff`, `FormatRejectionUnlinks`).  Retries need no assumption:
  no stage emits a code that names a later stage (`PipelineHistory.EmittedGoesBack`).
- After three failures the uncut loop can still report the response of an earlier attempt
  (`SelectionRetry.SplitStepRefinesWhole`, `FlakySnapshotsDiffer`).
- The weekday of a transaction is no grouping dimension, though the registry's comment expects it
  in filters only: selected, it shows single customers (`WeekdayCoverage.WeekdayCoverIff`,
  `WeekdayUncovered`).

`dafny verify dfyconfig.toml` checks everything.

## Model

| member | source | states |
|---|---|---|
| ProcessingPlan.ValidateProcessingOperations | agent_runtime/data_processing/plan.py:244-310 | the loop accepts a plan exactly when the recursive lineage check does, ends with the same columns, and returns the normalised operations |
| PlanMeaning.ApprovedMeans | agent_runtime/data_processing/plan.py:249-256 | a column is approved if and only if the selection names it as a source, not blank, or as a query column |
| PlanMeaning.CompareAccepted | agent_runtime/data_processing/plan.py:398-401 | a comparison refers to these columns if and only if its operator is one of seven words and its two operands together refer to them; the other four kinds have lemmas of the same form |
| PlanMeaning.OperandMeans | agent_runtime/data_processing/plan.py:433-444 | an operand is a named column, a literal or a nested operation, and refers to that column, to none, or to what the operation refers to |
| PlanMeaning.CheckedMeans | agent_runtime/data_processing/plan.py:244-310 | the check accepts an operation where some columns are available if and only if it reads those alone and has what its kind asks for, and then it finds the columns the operation leaves |
| PlanMeaning.AcceptedChain | agent_runtime/data_processing/plan.py:244-310 | an accepted plan is a chain of operations each of which may follow where the one before left off |
| PlanMeaning.RejectedChain | agent_runtime/data_processing/plan.py:244-310 | a rejected plan has such a chain up to a first operation that may not follow |
| Expressions.ArithmeticLoop | agent_runtime/data_processing/processor.py:423-439 | the accumulating loop is the left fold, and stops exactly on a division by zero whose policy is `error` |
| Expressions.OperandSound | agent_runtime/data_processing/processor.py:360-391 | an operand the check accepts evaluates on every row that has its columns without a missing key or unsupported operation |
| Expressions.ArithmeticSound | agent_runtime/data_processing/processor.py:423-439 | an accepted arithmetic expression can only stop on its explicit division-by-zero policy |
| Expressions.OperationSound | agent_runtime/data_processing/plan.py:397-430 | the same for every accepted expression operation |
| Expressions.OperandLocal | agent_runtime/data_processing/plan.py:433-444 | the value of an accepted operand depends only on the columns the check collected |
| Expressions.OperationLocal | agent_runtime/data_processing/plan.py:361-368 | altering any column outside the checked reference set leaves an expression's outcome unchanged |
| ExpressionMeaning.CompareNumbers | agent_runtime/data_processing/processor.py:394-411 | on numbers each of the seven comparison operators is the order or equality it names |
| ExpressionMeaning.CompareTexts | agent_runtime/data_processing/processor.py:394-411 | on texts it is the order by first difference |
| ExpressionMeaning.CompareUnordered | agent_runtime/data_processing/processor.py:394-411 | a null or two values without an order compare as false under the four order operators |
| ExpressionMeaning.CompareLists | agent_runtime/data_processing/processor.py:394-411 | lists are ordered by their first unequal elements, and then by length |
| ExpressionMeaning.CompareMember | agent_runtime/data_processing/processor.py:394-411 | `in` holds of a list with an equal element and of nothing else |
| ExpressionMeaning.LogicalMeans | agent_runtime/data_processing/processor.py:372-376 | `and`, `or` and `not` are decided by the truth of the operands' values |
| ExpressionMeaning.ConditionalMeans | agent_runtime/data_processing/processor.py:377-379 | a conditional is the branch its condition names, and the other is not evaluated |
| ExpressionMeaning.ArithmeticMeans | agent_runtime/data_processing/processor.py:423-439 | add and multiply are the sum and the product, subtract is the first less the sum of the rest, divide is the first over the product of the rest when no divisor is zero and otherwise the policy's value or error |
| ExpressionMeaning.ArithmeticNull | agent_runtime/data_processing/processor.py:414-428 | an operand that is no number makes the arithmetic null |
| ExpressionMeaning.MapValuesMeans | agent_runtime/data_processing/processor.py:385-390 | a lookup gives the entry under the value's text, else the default, else null |
| ExpressionMeaning.OperandFails | agent_runtime/data_processing/processor.py:360-391 | an operand that fails makes its expression fail in the same way |
| Aggregation.MetricLoop | agent_runtime/data_processing/processor.py:511-527 | one output row holds, under each metric target, the metric over the group's members; a repeated target keeps the last metric; what the cells hold is `MetricMeaning.AggregatedCells` |
| Aggregation.GroupRows | agent_runtime/data_processing/processor.py:496-510 | grouping in one pass gives every group exactly its members in order, and the groups in order of first appearance |
| Aggregation.AggregateRows | agent_runtime/data_processing/processor.py:511-528 | the filled groups give one output row for each group of the definition, in order of first appearance |
| MetricMeaning.AggregatedCells | agent_runtime/data_processing/processor.py:496-528 | with S the numbers of a metric's column over the rows that share the group columns, a sum or average cell holds the sum or mean of S, a min or max cell a least or greatest member of S, all null exactly when S is empty; count and count_distinct count values and distinct writings |
| MetricMeaning.OneOutputEach | agent_runtime/data_processing/processor.py:496-528 | every input row's group has one output row, and no two output rows belong to one group |
| Aggregation.AttachLoop | agent_runtime/data_processing/processor.py:531-547 | each row gets the values indexed under its key, or the first row without one stops the operation |
| Processor.AggregateStep | agent_runtime/data_processing/processor.py:496-528 | grouping, reading the metrics and building the rows give the specified table or the specified stop; metrics are read only when there is a group |
| Processor.WindowStep | agent_runtime/data_processing/processor.py:531-547 | aggregating, indexing and attaching give the specified table or the specified stop |
| MetricMeaning.WindowedCells | agent_runtime/data_processing/processor.py:531-547 | a window keeps every row's place and other columns and attaches the same cells of the row's own group |
| WindowProofs.HeadsEnumerateGroups | agent_runtime/data_processing/processor.py:496-528 | the group heads have pairwise distinct keys and cover exactly the keys that occur |
| WindowProofs.GroupsPartitionRows | agent_runtime/data_processing/processor.py:496-528 | for any row weight the group totals add up to the total over all rows |
| WindowProofs.OutputCellsAddUp | agent_runtime/data_processing/processor.py:511-527 | under the target of a sum or a count that no later metric repeats, the cells of the output rows add up to the sum or the count of the column over all input rows |
| WindowProofs.OutputKeysDistinctIff | agent_runtime/data_processing/processor.py:496-528 | the output rows have pairwise distinct keys on all inputs if and only if no metric target is a group column |
| WindowProofs.WindowDefinitionIff | agent_runtime/data_processing/processor.py:531-547 | on all inputs every row keeps its position and other columns and receives the metrics computed directly over the rows that share its key, if and only if no target and no attached name is a group column |
| WindowDelivery.WindowDeliversIff | agent_runtime/data_processing/processor.py:531-547 | a window attaches to every row of every input the metrics the plan check promised if and only if every metric names its column and target by a text and no target is a group column |
| WindowProofs.OverwrittenKeyIsLost | agent_runtime/data_processing/processor.py:531-547 | a metric target among the group columns makes the lookup fail on a concrete one-row input |
| WindowProofs.WindowSafeIff | agent_runtime/data_processing/processor.py:531-547 | a window aggregation finds every group on all inputs if and only if no metric target is one of its group columns |
| Processor.CastLoop | agent_runtime/data_processing/processor.py:279-291 | casting in place changes exactly the listed columns of every row, one after another |
| Processor.FillMissingLoop | agent_runtime/data_processing/processor.py:442-462 | filling in place column by column equals the specification, including the direct reads that can miss |
| Processor.DeduplicateLoop | agent_runtime/data_processing/processor.py:613-621 | the loop with a set of markers equals the recursive form |
| Processor.DeriveLoop | agent_runtime/data_processing/processor.py:292-327 | a row-wise derivation writes one value to each row, or stops at the first row that fails; the values are those of `OperationMeaning` and `ExpressionMeaning` |
| Processor.ExecutePlan | agent_runtime/data_processing/processor.py:269-357 | running the operations in a loop is their composition, stopping at the first failure |
| Processor.ProcessPayload | agent_runtime/data_processing/processor.py:50-82 | normalise, check, execute and project, with each refusal in its place |
| ExecutionMeaning.CastRuns | agent_runtime/data_processing/processor.py:275-284 | a cast converts each listed column of each row to the named type, once for each time it is listed, and leaves nulls and other columns |
| ExecutionMeaning.FillRuns | agent_runtime/data_processing/processor.py:442-462 | filling replaces the nulls of a listed column by the median of its numbers, by its first most common value or by zero, as the named strategy says |
| ExecutionMeaning.DropRuns | agent_runtime/data_processing/processor.py:442-462 | dropping keeps exactly the rows with a value in every listed column, in order |
| ExecutionMeaning.DeduplicateRuns | agent_runtime/data_processing/processor.py:288-291 | deduplication compares the listed columns, or all of the table's when none is listed, and keeps first rows |
| ExecutionMeaning.SortRuns | agent_runtime/data_processing/processor.py:337-341 | sorting permutes the rows so that none comes strictly before an earlier one, or after it when the direction is `desc`; nulls come last |
| OperationMeaning.SortStable | agent_runtime/data_processing/processor.py:337-341 | rows that tie keep their order, in either direction |
| ExecutionMeaning.SelectRuns | agent_runtime/data_processing/processor.py:342-345 | a selection leaves the listed columns of every row, null where there was none |
| ExecutionMeaning.DerivedRuns | agent_runtime/data_processing/processor.py:292-327 | a row-wise derivation adds its target to the listed columns and its value to every row |
| OperationMeaning.ExpressionValue | agent_runtime/data_processing/processor.py:319-327 | an expression operation computes the expression of its name over its parameters |
| OperationMeaning.DatePartValue | agent_runtime/data_processing/processor.py:292-300 | a date part is read in the operation's time zone, UTC by default, and is null for null |
| OperationMeaning.BucketValue | agent_runtime/data_processing/processor.py:485-493 | a number in range gets the label of an interval that holds it, a number out of range null |
| ExecutionMeaning.LabelsMismatch | agent_runtime/data_processing/processor.py:307-318 | labels that are no list of one for each interval stop a bucketize operation, even without rows |
| ExecutionMeaning.AggregateRuns | agent_runtime/data_processing/processor.py:334-336 | an aggregation reads its groups and metrics from the named parameters and lists group columns, then targets |
| ExecutionMeaning.WindowRuns | agent_runtime/data_processing/processor.py:328-333 | a window lists the targets that are new after the table's columns, each once |
| OperationMeaning.InputMeans | agent_runtime/data_processing/processor.py:60-61 | before the first operation every row has every column, and texts that mean null are null |
| OperationMeaning.LeftRightMeans | agent_runtime/data_processing/plan.py:327-331 | `left` and `right` of an arithmetic or logical operation become its two operands, in this order |
| RowMeaning.DedupeKeepsFirst | agent_runtime/data_processing/processor.py:613-621 | deduplication keeps exactly the rows whose marker no earlier row has, in order, and fails exactly when a column is missing |
| RowMeaning.FillLeavesNoGap | agent_runtime/data_processing/processor.py:442-462 | filling by median, mode or zero changes only missing cells of the listed columns, and leaves a column without a gap if and only if it had none or holds what the strategy fills from |
| RowMeaning.DropRowKeepsComplete | agent_runtime/data_processing/processor.py:442-462 | dropping rows keeps exactly the rows without a gap in the listed columns, in order |
| RowMeaning.MostCommonMember | agent_runtime/data_processing/processor.py:629-640 | the mode is a value of the column with the greatest number of occurrences |
| RowMeaning.BucketIff | agent_runtime/data_processing/processor.py:485-493 | a number gets the label of an interval that holds it, and none if and only if it lies outside the boundaries |
| RowMeaning.SortedRealsAscending | agent_runtime/data_processing/processor.py:310-310 | the boundaries are in order |
| RowMeaning.SortRowsSorted | agent_runtime/data_processing/processor.py:550-551 | sorting orders the rows by the listed columns in either direction and keeps every row as often as it was |
| Lineage.OperationLineage | agent_runtime/data_processing/plan.py:244-310 | one accepted and disciplined operation turns rows with the checked columns into rows with the columns the check computes, or stops for a reason other than a missing key |
| LineageLimits.DisciplineIff | agent_runtime/data_processing/plan.py:244-310 | and an accepted operation does so on every table if and only if it is disciplined: no new target where none is created, every metric has a column, aggregation targets are texts, window targets are no group columns |
| LineageLimits.AggregateColumnsIff | agent_runtime/data_processing/processor.py:511-527 | the columns computed for an aggregation are right if and only if every metric target is a text |
| LineageLimits.OddTargetMisses | agent_runtime/data_processing/plan.py:244-310 | a concrete plan the check accepts and that fails on every non-empty input: a count stored under a number, then read under its text |
| LineageLimits.WindowPromiseIff | agent_runtime/data_processing/plan.py:244-310 | an accepted window delivers what the check promised if and only if its metrics' columns and targets are texts and no target is a group column |
| Lineage.LineageSound | agent_runtime/data_processing/processor.py:269-357 | after every operation of an accepted, disciplined plan each row's key set is the computed one and no read missed a key |
| Lineage.OutputExact | agent_runtime/data_processing/processor.py:68-70 | delivered rows have exactly the output columns, each read from an existing column of the final rows |
| LineageLimits.PhantomTargetIff | agent_runtime/data_processing/plan.py:244-310 | for cast, fill, deduplicate and sort the computed columns are right if and only if a target, when given, already exists |
| LineageLimits.PhantomTargetMisses | agent_runtime/data_processing/plan.py:244-310 | a concrete plan the check accepts and that fails on every non-empty input because sort was given a new target |
| Lineage.DerivedValueSound | agent_runtime/data_processing/processor.py:292-327 | a row-wise derivation of an accepted plan never misses a key |
| OperationOrder.RunRound | agent_runtime/data_processing/plan.py:167-187 | one pass removes from the pending operations exactly those whose sources are available and makes their targets available |
| OperationOrder.OrderDerivedOperations | agent_runtime/data_processing/plan.py:134-189 | the sorting loop terminates and returns what repeated rounds give |
| OperationOrder.OrderSound | agent_runtime/data_processing/plan.py:134-189 | a computed order is a permutation with each derived operation after the producers of its sources and the others last, unmoved |
| OperationOrder.RoundsCompleteIff | agent_runtime/data_processing/plan.py:164-187 | the rounds finish if and only if some order respects all dependencies |
| OperationOrder.OrderOutcome | agent_runtime/data_processing/plan.py:167-189 | unknown columns are reported iff a source has no producer, a cycle iff none is unknown and no order exists, an order iff one exists |
| OperationOrder.OrderIdempotent | agent_runtime/data_processing/plan.py:134-189 | ordering an ordered list changes nothing |
| Confluence.OrdersAgree | agent_runtime/data_processing/processor.py:269-357 | for any steps that add columns determined by what they read, two dependency-respecting orders give the same rows or both stop |
| Reordering.DerivedOrdersAgree | agent_runtime/data_processing/processor.py:292-347 | that holds of the executor's derived operations, window aggregations included |
| Reordering.DerivedValueLocal | agent_runtime/data_processing/plan.py:334-389 | what an accepted row-wise operation computes depends on its declared columns only, whatever else the row holds |
| Reordering.IndependentCommute | agent_runtime/data_processing/processor.py:531-547 | two derived operations commute when neither touches what the other writes |
| Reordering.ReorderingPreservesRows | agent_runtime/data_processing/plan.py:148-189 | replacing any valid order of derived operations by the computed one succeeds and never changes the rows or whether execution stops |
| Reordering.ReorderingDropsColumn | agent_runtime/data_processing/plan.py:148-189 | with a projection before a derivation the computed order loses the derived column: the concrete reason the claim is about derived operations |
| StoredRun.PipelineRun.constructor | app/domains/pipeline/service.py:246-271 | a new run has one pending first attempt of every stage and is queued at the first; the contract states every field (`RunEffects.IsNew`) |
| StoredRun.PipelineRun.ReopenFrom | app/domains/pipeline/service.py:1038-1087 | every live attempt from the target stage on is rolled back and each of those stages gets a linked pending attempt that keeps the approval |
| StoredRun.PipelineRun.Redispatch | app/domains/pipeline/service.py:1131-1161 | a fresh execution id is committed with the change, and a refused schedule fails the run |
| StoredRun.PipelineRun.SubmitStageReview | app/domains/pipeline/service.py:813-1035 | approval, rejection and retry change the run as specified, and a refused review changes nothing |
| StoredRun.PipelineRun.AdminRecover | app/domains/pipeline/service.py:1090-1128 | admin recovery re-opens every stage under a fresh execution |
| StoredRun.PipelineRun.RecoverStale | app/domains/pipeline/stale_run_monitor.py:30-84 | a stale run restarts its running stage below the limit and fails at it |
| StoredRun.PipelineRun.PersistStatusEvent | app/worker/status_recorder.py:88-139 | an event of the current execution updates the run and the newest attempt of its stage; any other event changes nothing; the contract states the whole new state (`RunEffects.EventEffect`) |
| StoredRun.PipelineRun.RecordAgentLog | app/worker/status_recorder.py:372-430 | a log line is stored for the current execution only, and nothing else changes |
| RunEffects.CreatedIsNew | app/domains/pipeline/service.py:246-271 | a new run, field by field |
| RunEffects.EventEffects | app/worker/status_recorder.py:88-139 | an event of the current execution sets the run's status, place and rollback stage, the request status case by case, and of all rows only the newest of its stage: its status, and its output if the stage is done or broken |
| RunEffects.ReviewEffects | app/domains/pipeline/service.py:813-1035 | every review case, outright: final approval completes run and request, approval of a selection stores the seven plan fields of the newest selection with their digest at the newest pending processing row, rejection and retry go back to a named stage, anything else changes nothing |
| RunEffects.ReopenEffects | app/domains/pipeline/service.py:1038-1087 | re-opening marks exactly the live rows from the target stage on and appends, for each of these stages, one pending row numbered and linked after the newest, with its approval |
| RunEffects.AdminEffects | app/domains/pipeline/service.py:1090-1128 | admin recovery, field by field |
| RunEffects.WatchdogEffects | app/domains/pipeline/stale_run_monitor.py:30-84 | the watchdog acts on the newest row in progress of a stale running run and on nothing else, and restarts or fails it by the limit |
| RunEffects.NextPendingFinds | app/domains/pipeline/supervisor.py:69-110 | a dispatch picks the oldest pending row of the rollback stage, or else of the first stage that has one, and none while a row is in progress |
| RunEffects.FailureMeans | app/domains/pipeline/executor.py:301-307 | an unreachable agent sends a failed stage back to itself, any other failure where its code says |
| PlanHistory.ApprovedPlanIsSelected | app/domains/pipeline/service.py:985-1035 | over every legal history, in processing, the approved plan is the seven plan fields of the result that the last completed selection delivered |
| StageAttempts.LatestIsNewest | app/domains/pipeline/supervisor.py:69-110 | in a well-numbered table the newest row of a stage carries the number of its attempts and is the last of its rows |
| StageAttempts.ReopenKeeps | app/domains/pipeline/service.py:1038-1087 | re-opening keeps the attempt table in order and says which attempt of each stage is then newest |
| StageAttempts.ReviewKeepsAttempts | app/domains/pipeline/service.py:813-1035 | reviews keep the attempt invariant |
| StageAttempts.EventKeepsAttempts | app/worker/status_recorder.py:127-139 | status events keep the attempt invariant |
| StageAttempts.RecoveryKeepsAttempts | app/domains/pipeline/stale_run_monitor.py:35-62 | admin and automatic recovery keep the attempt invariant |
| PipelineHistory.AttemptsAlways | app/domains/pipeline/service.py:260-271 | in every state of every history attempts are numbered 1..n with links, only the newest may be live, and numbers never decrease along the stages |
| PipelineHistory.StepInv | app/domains/pipeline/executor.py:137-360 | every enabled step keeps the run invariant |
| PipelineHistory.ApprovedPlanAlwaysLinked | app/domains/pipeline/service.py:985-1035 | in every state of every history with safe rejections the newest attempts read done, current, pending, and a current processing stage carries the verified approval of the newest completed selection |
| PipelineHistory.DispatchFindsCurrent | app/domains/pipeline/supervisor.py:69-171 | a scheduled execution finds the current stage's newest attempt and its payload builds |
| PipelineHistory.DispatchNeverFails | app/domains/pipeline/executor.py:73-116 | no dispatch of a legal history fails |
| PipelineHistory.EmittedGoesBack | app/domains/pipeline/supervisor.py:399-424 | no failure code a stage emits sends the run to a later stage |
| RollbackLimits.RejectionKeepsPromiseIff | app/domains/pipeline/service.py:903-935 | a scheduled rejection leaves the plan linked if and only if it does not send the run from an earlier gate to processing |
| RollbackLimits.FormatRejectionUnlinks | app/domains/pipeline/service.py:903-935 | a concrete history, rejected with a format error at its first gate, stands at processing without an approved plan |
| RollbackLimits.RetryKeepsPromiseIff | app/domains/pipeline/supervisor.py:399-424 | whatever code a failure carries, the scheduled retry leaves the plan linked if and only if the code names no later stage |
| RunGuarantees.RecoveryIsBounded | app/domains/pipeline/stale_run_monitor.py:35-62 | over any history whatsoever the watchdog restarts a run at most 3(limit - 1) times |
| RunGuarantees.ForwardRecoveryIsBounded | app/domains/pipeline/stale_run_monitor.py:35-62 | when nobody rolls the run back it restarts it at most limit - 1 times, whichever stages stall |
| RunGuarantees.StepFreshness | app/domains/pipeline/service.py:1131-1135 | a step keeps the execution id or takes one never used, and always the latter when it adds attempts |
| RunGuarantees.SupersededExecutionsHaveNoEffect | app/worker/status_recorder.py:88-92 | deleting everything superseded executions send at any later time leaves the final run, attempts, request status and event log unchanged |
| RunGuarantees.RestartSupersedes | app/domains/pipeline/service.py:1131-1135 | every restart supersedes the execution before it |
| SelectionRetry.Session.RunAttempts | agent_runtime/data_selection/agent.py:1505-1590 | the loop makes the specified model requests and leaves its variables as specified; which requests those are is `AttemptTrace.StepAsks` |
| SelectionRetry.Session.RunPromptStep | agent_runtime/data_selection/agent.py:1484-1635 | one prompt step with any attempt limit, offset and failure mode sends the specified requests and events and returns the specified result |
| AttemptTrace.VerdictMeans | agent_runtime/data_selection/agent.py:1548-1556 | a reply is accepted if and only if it parses to exactly the step's keys and passes the contract, whose rewritten values it then has |
| AttemptTrace.StepAsks | agent_runtime/data_selection/agent.py:1505-1635 | of the requests a step adds, the first carries the feedback given and each later one the feedback on the rejection of the reply before it; it stops at the first accepted reply or at its limit, and its data, or its error, feedback and snapshot, are those of the last reply |
| AttemptTrace.StepReports | agent_runtime/data_selection/agent.py:1484-1635 | the step reports running on its first attempt ever, then completed with the accepted data, or failed when it is given up |
| AttemptTrace.SeenMeans | agent_runtime/data_selection/agent.py:1522-1526 | a reply is remembered by its length, its first 2000 characters and its finish reason |
| SelectionRetry.Session.RunSelectionBySteps | app/domains/pipeline/agent_client.py:673-723 | the caller's nested loops compute the split flow |
| AttemptTrace.SplitStepAsks | app/domains/pipeline/agent_client.py:673-723 | one invocation per attempt asks, feeds back and ends in the same way, three attempts in all |
| AttemptTrace.FlowAsks | agent_runtime/data_selection/agent.py:1796-1850 | a whole selection asks for the sources, shows their accepted data to the derived step and both to the sample step, and delivers the three together if they pass the final check |
| SelectionRetry.SplitStepRefinesWhole | agent_runtime/data_selection/agent.py:1505-1635 | three one-attempt invocations send the same requests, report RUNNING once and FAILED exactly on the third failure and give the same result; the failure snapshots agree if and only if the third call replied or no earlier response is retained |
| SelectionRetry.FlakySnapshotsDiffer | agent_runtime/data_selection/agent.py:1505-1635 | with a model that answers once and is then down the two failure snapshots do differ |
| SelectionRetry.SplitFlowRefinesWhole | app/domains/pipeline/agent_client.py:673-723 | the same for the whole three-step flow with its final contract check |
| DerivationSpec.Normalize | agent_runtime/data_selection/agent.py:1244-1338 | the expression normaliser terminates on every tree, never nests deeper, and changes nothing of an expression but its parameters |
| DerivationFixpoint.NormalizeSettles | agent_runtime/data_selection/agent.py:1180-1338 | normalising an arbitrary tree twice is normalising it once, whatever columns are declared the second time |
| DerivationMeaning.NormalizeMeans | agent_runtime/data_selection/agent.py:1180-1338 | on every row, evaluating the normalised expression gives what its loose form means: symbols for operators, declared names for columns, flat comparisons and renamed parameters |
| DerivationForms.DatePartForm | agent_runtime/data_selection/agent.py:1252-1259 | a date part reads the column or operand written as its source, and its part under either name |
| DerivationForms.AggregateForm | agent_runtime/data_selection/agent.py:1314-1328 | groups evaluate to what they mean as written, and every metric reads its source and keeps its other fields |
| SelectionContract.SortedBinsSorted | agent_runtime/data_selection/agent.py:1019-1035 | bucket boundaries become strictly increasing, cover all given ones and no others, and sorted boundaries stay as they are |
| SelectionContract.Labels | agent_runtime/data_selection/agent.py:1036-1048 | labels fit the intervals, are not blank and have no outer space |
| SelectionContract.NormalizeBucketizeColumns | agent_runtime/data_selection/agent.py:993-1061 | the loop keeps and repairs exactly the columns with at least one interval and names the dropped ones |
| SelectionContract.CheckDerivedColumns | agent_runtime/data_selection/agent.py:817-842 | the loop checks every derived column against the selected columns and those derived before it |
| ContractMeaning.KeepsMeans | agent_runtime/data_selection/agent.py:1003-1035 | a bucketize column stays if and only if its boundaries are all numbers with two different ones among them |
| ContractMeaning.BucketizedMeans | agent_runtime/data_selection/agent.py:1036-1048 | of a column that stays only boundaries and labels change: boundaries in order, and for each interval the given label without outer space, or one that names its number and its ends |
| ContractMeaning.NoticeMeans | agent_runtime/data_selection/agent.py:1050-1061 | one notice naming the dropped columns is added if and only if there is one and a list to put it in |
| ContractMeaning.CheckedIff | agent_runtime/data_selection/agent.py:885-951 | a derived column is accepted if and only if its expression normalises to the form of version 1.0 over available columns, at least one, with a type its operation can have |
| ContractMeaning.AcceptedColumns | agent_runtime/data_selection/agent.py:817-842 | an accepted design has the columns that stay, in order, each with its type settled from its operation and its other fields as they were |
| ContractMeaning.AcceptedQuery | agent_runtime/data_selection/agent.py:701-714 | its query asks for each source column once in order, a single value of an `in` filter became a list of one, and nothing else of the design changed but columns and notice |
| ContractMeaning.AcceptedPolicy | agent_runtime/data_selection/agent.py:673-724 | its sources are columns of the database, its query has no limit or vector search, its filters are on sources, and names of derived columns clash with none |
| SelectionFixpoint.CheckedColumnFixed | agent_runtime/data_selection/agent.py:885-951 | checking a rewritten column again changes nothing |
| SelectionFixpoint.BucketizedFixed | agent_runtime/data_selection/agent.py:993-1061 | a repaired and checked bucketize column is repaired to itself |
| SelectionFixpoint.ContractIsFixpoint | agent_runtime/data_selection/agent.py:656-853 | a design the contract accepts and rewrites is accepted again, unchanged |
| SelectionFixpoint.SourcesAreReferences | agent_runtime/data_selection/agent.py:911-938 | in an accepted design each derived column lists exactly the columns its expression refers to, each selected or derived earlier |
| SelectionQuery.ParseFilters | agent_runtime/query/plan.py:127-137 | the loop gives the filters in order or the first error |
| SelectionQuery.BuiltIsWellFormed | agent_runtime/query/plan.py:53-116 | every accepted plan has distinct, allowed columns, filters on allowed columns whose values fit their operators, a limit in range, and no person attributes with identifiers |
| SelectionMeaning.BuiltMeans | agent_runtime/query/plan.py:53-116 | an accepted plan has exactly the selected datasets, the columns asked for or else the defaults, once each in the order first asked for, a condition for each filter on the column its key stands for, and the limit given |
| SelectionMeaning.BuiltIff | agent_runtime/query/plan.py:53-116 | a plan is accepted if and only if its datasets are known, the limit is in range, every name asked for is an allowed column, every filter can be read, and no two person attributes meet a row identifier |
| PrivacyMeaning.NeverQueried | agent_runtime/query/registry.py:198-254 | no accepted plan returns or filters on a postal code, card number, IP address, or a shop's name, registration number or opening month |
| PrivacyMeaning.DefaultsNeverConflict | agent_runtime/query/plan.py:97-114 | a selection that names no columns never trips the identifier rule |
| WeekdayCoverage.WeekdayCoverIff | agent_runtime/query/executors.py:75-120 | without filters, every row returned from every database shares its combination over all selected columns that are no measure with at least k customers if and only if the weekday is not selected |
| WeekdayCoverage.SelectionCoverIff | agent_runtime/query/executors.py:75-120 | a choice of columns is covered under all filters if and only if the weekday is not chosen |
| WeekdayCoverage.WeekdayUncovered | agent_runtime/query/executors.py:75-120 | with the weekday, any k customers who pass the filters, agree in every dimension and of whom one has a weekday of its own are all returned, and that row covers one customer |
| QueryExecutor.ColumnMap | agent_runtime/query/executors.py:54-59 | the column map finds each column in the first table that has it |
| QueryExecutor.BuildStatement | agent_runtime/query/executors.py:53-120 | the statement's columns, tests and guard are those specified, or the specified refusal; what it returns is `StatementMeaning.ReturnedMeans` and `ResultMeans` |
| JoinMeaning.SourceMeans | agent_runtime/query/executors.py:168-194 | a row of the joined source occurs as often as the product of the occurrences of its parts, for rows whose parts are linked by merchant, business code, card and customer; only a missing merchant is null-extended |
| StatementMeaning.MatchedMeans | agent_runtime/query/executors.py:68-80 | the filtered join holds a row as often as the joined source does if every filter of the plan holds of the row's value of its column, and otherwise not at all |
| StatementMeaning.ReturnedMeans | agent_runtime/query/executors.py:75-120 | such a row is returned if and only if the plan has fewer than two person attributes, or no dimension of the row is null and at least k customers have a row that passes every filter and agrees with it in all dimensions |
| StatementMeaning.ResultMeans | agent_runtime/query/executors.py:53-120 | the result has the smaller of the limit and the number of returned rows as rows, and cell j of a row is its value of the plan's column j |
| KAnonymity.StatementRefusedIff | agent_runtime/query/executors.py:168-194 | a plan is refused if and only if it combines customers with merchants or business codes without transactions, or a filter value does not fit its column; no column or customer key is ever missing |
| KAnonymity.KeyIsCustomer | agent_runtime/query/executors.py:90-107 | in every joined row the counted key is the customer's own id |
| KAnonymity.ReturnedIff | agent_runtime/query/executors.py:75-120 | a matching row is returned, as often as it matches, if and only if its dimensions are non-null and shared by at least k distinct customers of the filtered join, where k is at least five |
| KAnonymity.CoarserCombinationsCovered | agent_runtime/query/executors.py:75-120 | every returned combination and every coarser projection of it covers at least k customers among the returned rows |
| PrivacySelection.NormalizeFilterColumns | agent_runtime/data_selection/agent.py:540-582 | the loop completes the source columns as specified |
| PrivacySelection.CompletedNames | agent_runtime/data_selection/agent.py:559-581 | completing adds exactly the filter keys that one metadata column has, and keeps the rest |
| SelectionMeaning.CompletedItems | agent_runtime/data_selection/agent.py:559-581 | every column that completing adds is a filter key with the dataset of the one metadata entry that offers it |
| PrivacySelection.NormalizePrivacySelection | agent_runtime/data_selection/agent.py:605-653 | the rewriting of a conflicting selection, with its notices |
| PrivacySelection.PrivateIsSafe | agent_runtime/data_selection/agent.py:605-653 | the result has no conflict and stays as it is; exactly the conflicting identifiers disappear, from columns and filters alike, each with a notice, and filter keys stay selected |
| PrivacyMeaning.PrivateMeans | agent_runtime/data_selection/agent.py:605-653 | a design is changed only if two person attributes are selected with a row identifier; then exactly the sources and filters naming an identifier go, all others stay in order, and each identifier without a notice gets one |
| PrivacySelection.PlanNeverTripsRule | agent_runtime/query/plan.py:97-114 | a selection of real columns after both rewritings never trips the identifier rule |
| EventStream.Generator.Turn | app/domains/pipeline/router.py:584-641 | one turn of the loop sends the specified frames and advances the cursor and the idle count |
| EventStream.IdsStrictlyIncrease | app/domains/pipeline/router.py:434-641 | on every connection status frame ids strictly increase, whatever is visible or published |
| StreamMeaning.OpeningMeans | app/domains/pipeline/router.py:434-582 | a first connection gets the log lines, a returning one the events after its last id up to the boundary, and both then the snapshot with the newest id |
| StreamMeaning.TurnMeans | app/domains/pipeline/router.py:586-641 | a turn sends the events after the cursor in order, then the message unless its event was sent, and moves the cursor to the last id sent |
| StreamMeaning.QuietTurns | app/domains/pipeline/router.py:635-641 | turns in which nothing happens send a heartbeat for every fifteen of them, and nothing else |
| EventDelivery.OpeningWalk | app/domains/pipeline/router.py:434-463 | a resumed client is brought from its last id to the snapshot boundary without gap or repetition |
| EventDelivery.ConnectWalk | app/domains/pipeline/router.py:434-641 | a connection broken anywhere leaves the client at some event with everything before it since its start, and one received in full at the last event its last query saw |
| EventDelivery.ExactlyOnce | app/domains/pipeline/router.py:434-641 | over any number of broken connections a client has received exactly the run's events after its starting point and up to its last id, whatever pub/sub delivers |
| EventDelivery.EarlyEventLosesOther | app/domains/pipeline/router.py:586-632 | a concrete run that loses an event when visibility is out of order or a message is published too early: both assumptions are needed |
| PiiScan.Scan | app/common/pii/__init__.py:66-88 | the nested loops accept, aggregate and dispose as specified |
| PiiScan.AggregateLoop | app/common/pii/__init__.py:91-125 | grouping in a dictionary gives each code its spans in order |
| PiiScan.Resolved | app/common/pii/__init__.py:75-80 | accepted spans are pairwise disjoint and every other candidate overlaps an accepted one before it |
| PiiScan.RejectedByPriority | app/common/pii/__init__.py:75-80 | a rejected span overlaps an accepted one of equal or higher priority |
| PiiScan.CountsAddUp | app/common/pii/__init__.py:91-125 | the counts of a summary add up to the number of accepted spans |
| PiiScan.OffsetsAreSpans | app/common/pii/__init__.py:105-123 | a detection's offsets are its code's spans sorted by start |
| PiiScan.SortedOrdered | app/common/pii/__init__.py:124-124 | a summary lists blocking detections first, each class by code |
| PiiScan.DispositionIff | app/common/pii/__init__.py:82-88 | a text passes if and only if there was no candidate and blocks if and only if an accepted span blocks |
| PiiMeaning.ScanReports | app/common/pii/__init__.py:66-125 | a scan reports a code if and only if an accepted span has it, with the number, severity, checksum outcome and offsets of exactly those spans |
| PiiMeaning.ReportedOnce | app/common/pii/__init__.py:91-125 | each such code is reported once |
| PiiMeaning.OverlapsMeans | app/common/pii/__init__.py:62-63 | two spans overlap if and only if they share a position, for spans that are not empty |
| Luhn.LuhnValid | app/common/pii/checksums.py:42-54 | the loop decides the check-digit formula |
| Luhn.ValidMeans | app/common/pii/checksums.py:42-54 | a number is valid if and only if it has two digits at least and the digit sums of its digits, every second one from the right doubled, add up to a multiple of ten |
| Luhn.UniqueCheckDigit | app/common/pii/checksums.py:42-54 | exactly one last digit makes a payload valid |
| Luhn.SubstitutionDetected | app/common/pii/checksums.py:42-54 | every single-digit substitution in a valid number is detected |
| Luhn.SwapDetectedIff | app/common/pii/checksums.py:42-54 | a swap of adjacent different digits is detected if and only if they are not 0 and 9 |

## Left out

- SelectionContract.CheckDerivedColumns: the operator and parameter checks of a normalised expression (agent.py lines 1075-1178 and 1341-1373) and the checks of filters, catalogs and samples are arbitrary predicates here, since they only read; the results hold for every choice of them.
- SelectionContract.NormalizeBucketizeColumns: nested dictionaries are values, so updating in place and sharing between the steps of one uncut run (the notice of a dropped column) are not captured.
- SelectionRetry.Session.RunPromptStep: log lines and the feasibility probe after the source selection are not modelled; the probe is taken to pass.
- Processor.ProcessPayload: counts of affected rows, reports, artifacts and quality checks are not modelled.
- LineageLimits.DisciplineIff: assumes that the columns and targets of metrics are hashable; with any other the executor stops with a TypeError at its first group.
- LineageLimits.WindowPromiseIff: assumes that no two metrics of the window share a target name and that each has a column; that windows named by texts deliver (`WindowDelivery.TextsDeliver`) is proved without this.
- Aggregation.MetricLoop: numbers are exact, without rounding, NaN, infinity or overflow.
- Reordering.ReorderingPreservesRows: about row contents; the order of the executor's column list differs after reordering.
- StoredRun.PipelineRun.PersistStatusEvent: progress, messages, timestamps, audit rows and the step snapshots inside a stage's output (with `_terminalize_running_steps`) are not modelled; a stage row's id is its position.
- PipelineHistory.StepInv: each commit is one atomic step, and `_schedule_pipeline_execution` starts the execution it was given; two scheduled tasks that read the same id are not modelled.
- KAnonymity.ReturnedIff: the order in which the database returns rows, hence which of them a limit keeps, is fixed to the order of the joined source.
- QueryExecutor.BuildStatement: how a filter value is converted to its column's type is a parameter, and the separate customer count taken before the query is not modelled.
- PrivacySelection.NormalizePrivacySelection: a column or term that is no string counts as absent, where Python raises for an unhashable one.
- EventStream.Generator.Turn: frame contents, and the step items of a snapshot, are not modelled; an event is its id.
- PiiScan.Scan: the detectors' patterns are not modelled; candidate spans are input.
- DerivationMeaning.NormalizeMeans: says what a normalised expression means, not which trees the normaliser refuses; a mapping or zero policy that looks like an operation is rewritten as one, which its meaning follows.
- Luhn.LuhnValid: digits are the ASCII ones; other characters that Python's `isdigit` accepts are refused.
- The legacy execution path without a plan, delivery by mail, contracts, keys, dashboards and documents.
