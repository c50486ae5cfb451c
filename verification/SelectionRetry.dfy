/**
 The three prompt steps of data selection, run either in one call with a retry loop inside each
 step, or as one remote invocation per attempt with the loop in the caller.
 Follows agent_runtime/data_selection/agent.py (`_run_prompt_step`, `run_steps`,
 `run_single_step`) and app/domains/pipeline/agent_client.py (`_run_selection_by_steps`).
 The model is an arbitrary function of all requests so far; validation is pure.
 */
module SelectionRetry {
  import opened Values

  type Output = map<string, Value>

  const TOTAL_ATTEMPTS := 3

  datatype StepCode = SourceSelection | DerivedDesign | SampleGeneration

  const STEPS: seq<StepCode> := [SourceSelection, DerivedDesign, SampleGeneration]

  function ResultKeys(step: StepCode): set<string> {
    match step
    case SourceSelection =>
      {"selected_tables", "source_columns", "selection_query", "interpretations", "catalog_issues", "catalog_matches"}
    case DerivedDesign => {"derived_columns"}
    case SampleGeneration => {"sample_columns", "sample_rows", "sample_metadata"}
  }

  /** What a request contains besides the payload shared by the whole run. */
  datatype Prompt = Prompt(step: StepCode, source: Output, derived: Output)

  datatype Request = Request(prompt: Prompt, feedback: Option<string>)

  /** A model call raises, or returns text with a finish reason ("" when it has none). */
  datatype Reply = Raised(error: string) | Replied(text: string, finish: string)

  datatype Response = Response(length: nat, excerpt: Option<string>, finish: Option<string>)

  const NO_RESPONSE := Response(0, None, None)

  function Seen(text: string, finish: string): Response {
    Response(|text|, if text == "" then None else Some(if |text| <= 2000 then text else text[..2000]),
             if finish == "" then None else Some(finish))
  }

  datatype Snapshot = Snapshot(
    step: StepCode, errors: seq<string>, technical: Option<string>, retries: nat, response: Response)

  datatype StepEvent =
    | StepRunning(step: StepCode)
    | StepCompleted(step: StepCode, summary: Output)
    | StepFailed(step: StepCode, snapshot: Snapshot)

  datatype Check = Accepted(data: Output) | Rejected(error: string)

  /** The model, the pure validators and the texts built from their messages. */
  datatype Env = Env(
    model: seq<Request> -> Reply,
    parse: string -> Check,
    keyError: (StepCode, Output) -> string,
    contract: (Prompt, Output) -> Check,
    final: Output -> Option<string>,
    feedback: (StepCode, nat, string) -> string,
    humanize: string -> string,
    summary: (StepCode, Output) -> Output)

  /** The contract rewrites values in place; the result keeps its keys. */
  function Judge(env: Env, p: Prompt, reply: Reply): (r: Check)
    ensures r.Accepted? ==> r.data.Keys == ResultKeys(p.step)
  {
    match reply
    case Raised(error) => Rejected(error)
    case Replied(text, _) =>
      match env.parse(text)
      case Rejected(error) => Rejected(error)
      case Accepted(data) =>
        if data.Keys != ResultKeys(p.step) then Rejected(env.keyError(p.step, data))
        else
          match env.contract(p, data)
          case Rejected(error) => Rejected(error)
          case Accepted(values) => Accepted(Rewritten(data, values))
  }

  function Rewritten(data: Output, values: Output): (r: Output)
    ensures r.Keys == data.Keys
  {
    map k | k in data :: if k in values then values[k] else data[k]
  }

  /** What one run has asked the model and reported so far. */
  datatype Trace = Trace(requests: seq<Request>, events: seq<StepEvent>)

  datatype StepResult =
    | Parsed(data: Output)
    | Exhausted(error: Option<string>, feedback: Option<string>, snapshot: Snapshot)

  /** The local variables of `_run_prompt_step` around its loop. */
  datatype Attempting = Attempting(
    requests: seq<Request>, feedback: Option<string>, error: Option<string>, response: Response,
    used: nat, parsed: Option<Output>)

  function Attempt(env: Env, p: Prompt, s: Attempting, attempt: nat): Attempting {
    var requests := s.requests + [Request(p, s.feedback)];
    var reply := env.model(requests);
    Judged(env, p, Answered(s, requests, reply, attempt), Judge(env, p, reply), attempt)
  }

  function Answered(s: Attempting, requests: seq<Request>, reply: Reply, attempt: nat): Attempting {
    var response := if reply.Replied? then Seen(reply.text, reply.finish) else s.response;
    s.(requests := requests, used := attempt, response := response)
  }

  function Judged(env: Env, p: Prompt, s: Attempting, check: Check, attempt: nat): Attempting {
    match check
    case Accepted(data) => s.(parsed := Some(data))
    case Rejected(error) => s.(error := Some(error), feedback := Some(env.feedback(p.step, attempt, error)))
  }

  function Retrying(env: Env, p: Prompt, s: Attempting, attempt: nat, left: nat): Attempting
    decreases left
  {
    if left == 0 || s.parsed.Some? then s else Retrying(env, p, Attempt(env, p, s, attempt), attempt + 1, left - 1)
  }

  lemma RetryingNext(env: Env, p: Prompt, s: Attempting, attempt: nat, left: nat)
    ensures s.parsed.Some? ==> Retrying(env, p, s, attempt, left) == s
    ensures s.parsed.None? && left > 0 ==>
      Retrying(env, p, s, attempt, left) == Retrying(env, p, Attempt(env, p, s, attempt), attempt + 1, left - 1)
  {}

  function Start(t: Trace, feedback: Option<string>): Attempting {
    Attempting(t.requests, feedback, None, NO_RESPONSE, 0, None)
  }

  function SnapshotOf(env: Env, step: StepCode, s: Attempting): Snapshot {
    Snapshot(step,
      if s.error.Some? && s.error.value != "" then [env.humanize(s.error.value)] else [], s.error, s.used, s.response)
  }

  function Opened(t: Trace, step: StepCode, offset: nat): Trace {
    if offset == 0 then t.(events := t.events + [StepRunning(step)]) else t
  }

  function Closed(env: Env, p: Prompt, t: Trace, s: Attempting, raises: bool): (Trace, StepResult) {
    if s.parsed.Some? then
      (Trace(s.requests, t.events + [StepCompleted(p.step, env.summary(p.step, s.parsed.value))]),
        Parsed(s.parsed.value))
    else
      var snapshot := SnapshotOf(env, p.step, s);
      (Trace(s.requests,
        if raises || s.used >= TOTAL_ATTEMPTS then t.events + [StepFailed(p.step, snapshot)] else t.events),
       Exhausted(s.error, s.feedback, snapshot))
  }

  /** `_run_prompt_step`; `raises` is `raise_on_exhaustion`. */
  function PromptStep(
    env: Env, p: Prompt, t: Trace, limit: nat, offset: nat, feedback: Option<string>, raises: bool): (Trace, StepResult)
  {
    var begun := Opened(t, p.step, offset);
    Closed(env, p, begun, Retrying(env, p, Start(begun, feedback), 1 + offset, limit), raises)
  }

  /** The step with its loop inside one call. */
  function WholeStep(env: Env, p: Prompt, t: Trace): (Trace, StepResult) {
    PromptStep(env, p, t, TOTAL_ATTEMPTS, 0, None, true)
  }

  /** The caller's loop over one-attempt invocations, from attempt `attempt`. */
  function SplitStep(env: Env, p: Prompt, t: Trace, attempt: nat, feedback: Option<string>): (Trace, StepResult)
    requires 1 <= attempt <= TOTAL_ATTEMPTS
    decreases TOTAL_ATTEMPTS - attempt
  {
    var (next, result) := PromptStep(env, p, t, 1, attempt - 1, feedback, false);
    if result.Parsed? || attempt == TOTAL_ATTEMPTS then (next, result)
    else SplitStep(env, p, next, attempt + 1, result.feedback)
  }

  lemma SplitNext(
    env: Env, p: Prompt, t: Trace, attempt: nat, feedback: Option<string>, next: Trace, result: StepResult)
    requires 1 <= attempt <= TOTAL_ATTEMPTS
    requires (next, result) == PromptStep(env, p, t, 1, attempt - 1, feedback, false)
    ensures SplitStep(env, p, t, attempt, feedback)
      == if result.Parsed? || attempt == TOTAL_ATTEMPTS then (next, result)
         else SplitStep(env, p, next, attempt + 1, result.feedback)
  {}

  // ----- all three steps -----

  datatype FlowResult = Merged(data: Output) | StepExhausted(result: StepResult) | ContractFailed(error: string)

  function Finished(env: Env, t: Trace, data: Output): (Trace, FlowResult) {
    (t, match env.final(data) case None => Merged(data) case Some(error) => ContractFailed(error))
  }

  /** `run_steps`, from the last step backwards. */
  function SampleFlow(env: Env, t: Trace, source: Output, derived: Output): (Trace, FlowResult) {
    var (next, sample) := WholeStep(env, Prompt(SampleGeneration, source, derived), t);
    if sample.Exhausted? then (next, StepExhausted(sample)) else Finished(env, next, source + derived + sample.data)
  }

  function DerivedFlow(env: Env, t: Trace, source: Output): (Trace, FlowResult) {
    var (next, derived) := WholeStep(env, Prompt(DerivedDesign, source, map[]), t);
    if derived.Exhausted? then (next, StepExhausted(derived)) else SampleFlow(env, next, source, derived.data)
  }

  function WholeFlow(env: Env, t: Trace): (Trace, FlowResult) {
    var (next, source) := WholeStep(env, Prompt(SourceSelection, map[], map[]), t);
    if source.Exhausted? then (next, StepExhausted(source)) else DerivedFlow(env, next, source.data)
  }

  function Pick(prior: Output, keys: set<string>): Output { map k | k in prior && k in keys :: prior[k] }

  /** The prompt `run_single_step` builds from the results merged so far. */
  function PromptFrom(step: StepCode, prior: Output): Prompt {
    var source, derived := Pick(prior, ResultKeys(SourceSelection)), Pick(prior, ResultKeys(DerivedDesign));
    match step
    case SourceSelection => Prompt(step, map[], map[])
    case DerivedDesign => Prompt(step, source, map[])
    case SampleGeneration => Prompt(step, source, derived)
  }

  /** `_run_selection_by_steps` from step `i`; the last invocation checks the merged result. */
  function SplitFlow(env: Env, t: Trace, merged: Output, i: nat): (Trace, FlowResult)
    requires i <= |STEPS|
    decreases |STEPS| - i
  {
    if i == |STEPS| then (t, Merged(merged)) else
    var (next, result) := SplitStep(env, PromptFrom(STEPS[i], merged), t, 1, None);
    if result.Exhausted? then (next, StepExhausted(result)) else
    if STEPS[i].SampleGeneration? && FinalError(env, merged, result.data).Some? then
      (next, ContractFailed(FinalError(env, merged, result.data).value))
    else SplitFlow(env, next, merged + result.data, i + 1)
  }

  function FinalError(env: Env, prior: Output, sample: Output): Option<string> {
    env.final(Pick(prior, ResultKeys(SourceSelection)) + Pick(prior, ResultKeys(DerivedDesign)) + sample)
  }

  // ----- the running session -----

  class Session {
    const env: Env
    var requests: seq<Request>
    var events: seq<StepEvent>

    function State(): Trace
      reads this
    {
      Trace(requests, events)
    }

    constructor (env: Env)
      ensures this.env == env && State() == Trace([], [])
    {
      this.env, requests, events := env, [], [];
    }

    /** One attempt: ask, remember the response, and either accept the data or note what to do better. */
    method TryOnce(p: Prompt, s: Attempting, attempt: nat, ghost left: nat) returns (next: Attempting)
      requires s.requests == requests && s.parsed.None? && left > 0
      modifies this`requests
      ensures Retrying(env, p, s, attempt, left) == Retrying(env, p, next, attempt + 1, left - 1)
      ensures requests == next.requests
    {
      requests := requests + [Request(p, s.feedback)];
      var reply := env.model(requests);
      next := s.(requests := requests, used := attempt);
      if reply.Replied? { next := next.(response := Seen(reply.text, reply.finish)); }
      var judged := Judge(env, p, reply);
      if judged.Accepted? {
        next := next.(parsed := Some(judged.data));
      } else {
        next := next.(error := Some(judged.error), feedback := Some(env.feedback(p.step, attempt, judged.error)));
      }
      assert next == Attempt(env, p, s, attempt);
      RetryingNext(env, p, s, attempt, left);
    }

    /** The attempts of one step, up to the first reply the contract accepts. */
    method RunAttempts(p: Prompt, first: nat, limit: nat, feedback: Option<string>) returns (s: Attempting)
      modifies this`requests
      ensures s == Retrying(env, p, Start(old(State()), feedback), first, limit)
      ensures requests == s.requests
    {
      s := Continue(p, Start(State(), feedback), first, limit);
    }

    /** The loop itself; `left` counts the attempts that remain. */
    method Continue(p: Prompt, start: Attempting, first: nat, limit: nat) returns (s: Attempting)
      requires start.requests == requests && start.parsed.None?
      modifies this`requests
      ensures s == Retrying(env, p, start, first, limit)
      ensures requests == s.requests
    {
      s := start;
      ghost var left := limit;
      for attempt := first to first + limit
        invariant left == first + limit - attempt
        invariant s.requests == requests && s.parsed.None?
        invariant Retrying(env, p, start, first, limit) == Retrying(env, p, s, attempt, left)
      {
        s := TryOnce(p, s, attempt, left);
        left := left - 1;
        if s.parsed.Some? { return; }
      }
    }

    method RunPromptStep(p: Prompt, limit: nat, offset: nat, feedback: Option<string>, raises: bool)
      returns (result: StepResult)
      modifies this
      ensures State() == PromptStep(env, p, old(State()), limit, offset, feedback, raises).0
      ensures result == PromptStep(env, p, old(State()), limit, offset, feedback, raises).1
    {
      if offset == 0 { events := events + [StepRunning(p.step)]; }
      var s := RunAttempts(p, 1 + offset, limit, feedback);
      if s.parsed.Some? {
        events := events + [StepCompleted(p.step, env.summary(p.step, s.parsed.value))];
        return Parsed(s.parsed.value);
      }
      var snapshot := SnapshotOf(env, p.step, s);
      if raises || s.used >= TOTAL_ATTEMPTS { events := events + [StepFailed(p.step, snapshot)]; }
      result := Exhausted(s.error, s.feedback, snapshot);
    }

    /** One invocation, and how the caller's loop goes on after it. */
    method Invoke(p: Prompt, attempt: nat, feedback: Option<string>) returns (step: StepResult)
      requires 1 <= attempt <= TOTAL_ATTEMPTS
      modifies this
      ensures step.Exhausted? && attempt < TOTAL_ATTEMPTS ==>
        SplitStep(env, p, old(State()), attempt, feedback) == SplitStep(env, p, State(), attempt + 1, step.feedback)
      ensures step.Parsed? || attempt == TOTAL_ATTEMPTS ==>
        SplitStep(env, p, old(State()), attempt, feedback) == (State(), step)
    {
      step := RunPromptStep(p, 1, attempt - 1, feedback, false);
      SplitNext(env, p, old(State()), attempt, feedback, State(), step);
    }

    /** The inner loop: one invocation per attempt, each with the feedback of the one before. */
    method RunSplitStep(p: Prompt) returns (step: StepResult)
      modifies this
      ensures (State(), step) == SplitStep(env, p, old(State()), 1, None)
    {
      var retryFeedback := None;
      step := Invoke(p, 1, retryFeedback);
      for attempt := 2 to TOTAL_ATTEMPTS + 1
        invariant step.Exhausted? && attempt <= TOTAL_ATTEMPTS ==>
          SplitStep(env, p, old(State()), 1, None) == SplitStep(env, p, State(), attempt, step.feedback)
        invariant step.Parsed? || attempt > TOTAL_ATTEMPTS ==>
          SplitStep(env, p, old(State()), 1, None) == (State(), step)
      {
        if step.Parsed? { return; }
        retryFeedback := step.feedback;
        step := Invoke(p, attempt, retryFeedback);
      }
    }

    method RunSelectionBySteps() returns (result: FlowResult)
      modifies this
      ensures (State(), result) == SplitFlow(env, old(State()), map[], 0)
    {
      var merged: Output := map[];
      for i := 0 to |STEPS|
        invariant SplitFlow(env, State(), merged, i) == SplitFlow(env, old(State()), map[], 0)
      {
        var step := RunSplitStep(PromptFrom(STEPS[i], merged));
        if step.Exhausted? { return StepExhausted(step); }
        if STEPS[i].SampleGeneration? {
          var error := FinalError(env, merged, step.data);
          if error.Some? { return ContractFailed(error.value); }
        }
        merged := merged + step.data;
      }
      result := Merged(merged);
    }
  }

  // ----- attempts that keep their state, and attempts that start afresh -----

  /** What one attempt makes of the state before it, for an attempt number. */
  type Attempter = (Attempting, nat) -> Attempting

  function Attempts(env: Env, p: Prompt): Attempter { (s: Attempting, k: nat) => Attempt(env, p, s, k) }

  /** The state a new invocation starts from: only the requests and the feedback are passed on. */
  function Passed(s: Attempting): Attempting { Attempting(s.requests, s.feedback, None, NO_RESPONSE, 0, None) }

  function Kept(f: Attempter, s: Attempting, k: nat): Attempting { if k == 0 then s else f(Kept(f, s, k - 1), k) }

  function Afresh(f: Attempter, s: Attempting, k: nat): Attempting {
    if k == 0 then s else f(Passed(Afresh(f, s, k - 1)), k)
  }

  /** Both have made the same requests; the second forgets the responses before its last call. */
  predicate Agrees(replied: seq<Request> -> bool, a: Attempting, b: Attempting, earlier: Response) {
    && a.requests == b.requests && a.used == b.used && a.parsed == b.parsed
    && (a.parsed.None? ==> a.feedback == b.feedback && a.error == b.error)
    && if replied(a.requests) then a.response == b.response else a.response == earlier && b.response == NO_RESPONSE
  }

  /** An attempt depends on the requests and the feedback alone; it resets nothing else. */
  ghost predicate Forgetful(f: Attempter, replied: seq<Request> -> bool) {
    forall s: Attempting, k: nat | s.parsed.None? :: Agrees(replied, f(s, k), f(Passed(s), k), s.response)
  }

  predicate Rejecting(f: Attempter, s: Attempting, k: nat) {
    k == 0 || (Kept(f, s, k).parsed.None? && Rejecting(f, s, k - 1))
  }

  lemma {:induction false} AgreeAlong(f: Attempter, replied: seq<Request> -> bool, s: Attempting, k: nat)
    requires Forgetful(f, replied) && s == Passed(s) && Rejecting(f, s, k)
    ensures Kept(f, s, k).requests == Afresh(f, s, k).requests && Kept(f, s, k).feedback == Afresh(f, s, k).feedback
    ensures Kept(f, s, k).parsed.None? && Afresh(f, s, k).parsed.None?
    ensures k >= 1 ==> Agrees(replied, Kept(f, s, k), Afresh(f, s, k), Kept(f, s, k - 1).response)
  {
    if k >= 1 {
      AgreeAlong(f, replied, s, k - 1);
      assert Passed(Kept(f, s, k - 1)) == Passed(Afresh(f, s, k - 1));
    }
  }

  /** The first accepted attempt is the same in both. */
  lemma AgreeAtEnd(f: Attempter, replied: seq<Request> -> bool, s: Attempting, k: nat)
    requires Forgetful(f, replied) && s == Passed(s) && k >= 1 && Rejecting(f, s, k - 1)
    ensures Agrees(replied, Kept(f, s, k), Afresh(f, s, k), Kept(f, s, k - 1).response)
  {
    AgreeAlong(f, replied, s, k - 1);
    assert Passed(Kept(f, s, k - 1)) == Passed(Afresh(f, s, k - 1));
  }

  /** The number of attempts made out of at most three. */
  function Made(f: Attempter, s: Attempting): (k: nat)
    ensures 1 <= k <= TOTAL_ATTEMPTS && Rejecting(f, s, k - 1)
    ensures Kept(f, s, k).parsed.None? ==> k == TOTAL_ATTEMPTS
  {
    assert Rejecting(f, s, 0);
    if Kept(f, s, 1).parsed.Some? then 1
    else
      assert Rejecting(f, s, 1);
      if Kept(f, s, 2).parsed.Some? then 2 else 3
  }

  lemma MadeByOther(f: Attempter, replied: seq<Request> -> bool, s: Attempting, j: nat)
    requires Forgetful(f, replied) && s == Passed(s) && 1 <= j < Made(f, s)
    ensures Afresh(f, s, j).parsed.None?
  {
    RejectingBefore(f, s, Made(f, s) - 1, j);
    AgreeAlong(f, replied, s, j);
  }

  lemma {:induction false} RejectingBefore(f: Attempter, s: Attempting, k: nat, j: nat)
    requires Rejecting(f, s, k) && j <= k
    ensures Rejecting(f, s, j)
  {
    if j < k { RejectingBefore(f, s, k - 1, j); }
  }

  // ----- the split run refines the whole one -----

  function Beginning(t: Trace, step: StepCode): Attempting { Start(Opened(t, step, 0), None) }

  function Replies(env: Env): seq<Request> -> bool { (requests: seq<Request>) => env.model(requests).Replied? }

  lemma AttemptForgets(env: Env, p: Prompt, s: Attempting, k: nat)
    requires s.parsed.None?
    ensures Agrees(Replies(env), Attempt(env, p, s, k), Attempt(env, p, Passed(s), k), s.response)
  {}

  lemma AttemptsForget(env: Env, p: Prompt)
    ensures Forgetful(Attempts(env, p), Replies(env))
  {
    forall s: Attempting, k: nat | s.parsed.None?
      ensures Agrees(Replies(env), Attempts(env, p)(s, k), Attempts(env, p)(Passed(s), k), s.response)
    {
      AttemptForgets(env, p, s, k);
    }
  }

  /** The whole step is its attempts, kept together, and one closing. */
  lemma WholeUnfolds(env: Env, p: Prompt, t: Trace)
    ensures var f, s := Attempts(env, p), Beginning(t, p.step);
      WholeStep(env, p, t) == Closed(env, p, Opened(t, p.step, 0), Kept(f, s, Made(f, s)), true)
  {
    var f, s := Attempts(env, p), Beginning(t, p.step);
    RetryingKept(env, p, s, 0);
    RetryingKept(env, p, s, 1);
    RetryingKept(env, p, s, 2);
    assert Retrying(env, p, Kept(f, s, 3), 4, 0) == Kept(f, s, 3);
  }

  lemma RetryingKept(env: Env, p: Prompt, s: Attempting, k: nat)
    requires k < TOTAL_ATTEMPTS
    ensures var f := Attempts(env, p);
      Retrying(env, p, Kept(f, s, k), k + 1, TOTAL_ATTEMPTS - k)
      == if Kept(f, s, k).parsed.Some? then Kept(f, s, k)
         else Retrying(env, p, Kept(f, s, k + 1), k + 2, TOTAL_ATTEMPTS - k - 1)
  {
    RetryingNext(env, p, Kept(Attempts(env, p), s, k), k + 1, TOTAL_ATTEMPTS - k);
  }

  lemma OneAttempt(env: Env, p: Prompt, t: Trace, k: nat, feedback: Option<string>)
    requires k >= 1
    ensures var begun := Opened(t, p.step, k - 1);
      PromptStep(env, p, t, 1, k - 1, feedback, false)
      == Closed(env, p, begun, Attempts(env, p)(Start(begun, feedback), k), false)
  {
    var begun := Opened(t, p.step, k - 1);
    RetryingNext(env, p, Start(begun, feedback), k, 1);
    assert Retrying(env, p, Attempt(env, p, Start(begun, feedback), k), k + 1, 0)
        == Attempt(env, p, Start(begun, feedback), k);
  }

  /** The trace the `k`th invocation starts from, and the one it works on. */
  function TraceBefore(env: Env, p: Prompt, t: Trace, k: nat): Trace
    requires k >= 1
  {
    if k == 1 then t else TraceDuring(env, p, t, k)
  }

  function TraceDuring(env: Env, p: Prompt, t: Trace, k: nat): Trace
    requires k >= 1
  {
    Trace(Afresh(Attempts(env, p), Beginning(t, p.step), k - 1).requests, Opened(t, p.step, 0).events)
  }

  lemma SplitUnfolds(env: Env, p: Prompt, t: Trace, k: nat)
    requires 1 <= k <= TOTAL_ATTEMPTS
    ensures var f, s := Attempts(env, p), Beginning(t, p.step);
      SplitStep(env, p, TraceBefore(env, p, t, k), k, Afresh(f, s, k - 1).feedback)
      == if Afresh(f, s, k).parsed.Some? || k == TOTAL_ATTEMPTS
         then Closed(env, p, TraceDuring(env, p, t, k), Afresh(f, s, k), false)
         else SplitStep(env, p, TraceBefore(env, p, t, k + 1), k + 1, Afresh(f, s, k).feedback)
  {
    var f, s := Attempts(env, p), Beginning(t, p.step);
    OneAttempt(env, p, TraceBefore(env, p, t, k), k, Afresh(f, s, k - 1).feedback);
    assert Opened(TraceBefore(env, p, t, k), p.step, k - 1) == TraceDuring(env, p, t, k);
    assert Start(TraceDuring(env, p, t, k), Afresh(f, s, k - 1).feedback) == Passed(Afresh(f, s, k - 1));
  }

  lemma RejectedTogether(env: Env, p: Prompt, t: Trace, k: nat)
    requires 1 <= k < Made(Attempts(env, p), Beginning(t, p.step))
    ensures Afresh(Attempts(env, p), Beginning(t, p.step), k).parsed.None?
  {
    AttemptsForget(env, p);
    MadeByOther(Attempts(env, p), Replies(env), Beginning(t, p.step), k);
  }

  /** Every invocation up to the last one continues the same split step. */
  lemma {:induction false} SplitReaches(env: Env, p: Prompt, t: Trace, k: nat)
    requires 1 <= k <= Made(Attempts(env, p), Beginning(t, p.step))
    ensures var f, s := Attempts(env, p), Beginning(t, p.step);
      SplitStep(env, p, t, 1, None) == SplitStep(env, p, TraceBefore(env, p, t, k), k, Afresh(f, s, k - 1).feedback)
  {
    if k > 1 {
      SplitReaches(env, p, t, k - 1);
      RejectedTogether(env, p, t, k - 1);
      SplitUnfolds(env, p, t, k - 1);
    }
  }

  /** The split step is its attempts, each afresh, and one closing. */
  lemma SplitEnds(env: Env, p: Prompt, t: Trace)
    ensures var f, s := Attempts(env, p), Beginning(t, p.step);
      SplitStep(env, p, t, 1, None)
      == Closed(env, p, TraceDuring(env, p, t, Made(f, s)), Afresh(f, s, Made(f, s)), false)
  {
    var k := Made(Attempts(env, p), Beginning(t, p.step));
    SplitReaches(env, p, t, k);
    SplitUnfolds(env, p, t, k);
    AcceptedTogether(env, p, t);
  }

  lemma AcceptedTogether(env: Env, p: Prompt, t: Trace)
    ensures var f, s := Attempts(env, p), Beginning(t, p.step);
      Afresh(f, s, Made(f, s)).parsed.Some? || Made(f, s) == TOTAL_ATTEMPTS
  {
    var f, s := Attempts(env, p), Beginning(t, p.step);
    AttemptsForget(env, p);
    AgreeAtEnd(f, Replies(env), s, Made(f, s));
  }

  /** The two runs of one step agree, except perhaps in the response kept by the snapshots. */
  predicate Refines(
    env: Env, p: Prompt, t: Trace, a: Trace, whole: StepResult, b: Trace, split: StepResult, sameSnapshot: bool)
  {
    && a.requests == b.requests
    && (whole.Parsed? <==> split.Parsed?)
    && (whole.Parsed? ==>
          && split == whole && a == b
          && a.events == t.events + [StepRunning(p.step), StepCompleted(p.step, env.summary(p.step, whole.data))])
    && (whole.Exhausted? ==>
          && split.error == whole.error && split.feedback == whole.feedback
          && a.events == t.events + [StepRunning(p.step), StepFailed(p.step, whole.snapshot)]
          && b.events == t.events + [StepRunning(p.step), StepFailed(p.step, split.snapshot)]
          && split.snapshot.(response := whole.snapshot.response) == whole.snapshot
          && (split.snapshot == whole.snapshot <==> sameSnapshot))
  }

  /** Whether the third model call returned a reply. */
  predicate ThirdReplied(env: Env, p: Prompt, t: Trace) {
    env.model(Kept(Attempts(env, p), Beginning(t, p.step), 3).requests).Replied?
  }

  /** The response the whole step still holds from its first two attempts. */
  function Retained(env: Env, p: Prompt, t: Trace): Response {
    Kept(Attempts(env, p), Beginning(t, p.step), 2).response
  }

  /** Closing two agreeing attempts. */
  lemma ClosedAgree(env: Env, p: Prompt, t: Trace, u: Trace, a: Attempting, b: Attempting, earlier: Response)
    requires Agrees(Replies(env), a, b, earlier) && u.events == Opened(t, p.step, 0).events
    requires a.parsed.None? ==> a.used == TOTAL_ATTEMPTS
    ensures var (x, whole) := Closed(env, p, Opened(t, p.step, 0), a, true);
      var (y, split) := Closed(env, p, u, b, false);
      Refines(env, p, t, x, whole, y, split, env.model(a.requests).Replied? || earlier == NO_RESPONSE)
  {
    assert forall e: StepEvent :: t.events + [StepRunning(p.step)] + [e] == t.events + [StepRunning(p.step), e];
  }

  /**
   The split step asks the model exactly what the whole step asks, reports RUNNING once and
   FAILED exactly on the third failure, and gives the same result.  After three failures the
   snapshots also agree, except that the whole step still holds the response of an earlier
   attempt when the third model call itself raises.
   */
  lemma SplitStepRefinesWhole(env: Env, p: Prompt, t: Trace)
    ensures var (a, whole) := WholeStep(env, p, t); var (b, split) := SplitStep(env, p, t, 1, None);
      Refines(env, p, t, a, whole, b, split, ThirdReplied(env, p, t) || Retained(env, p, t) == NO_RESPONSE)
  {
    WholeUnfolds(env, p, t);
    SplitEnds(env, p, t);
    EndsAgree(env, p, t);
  }

  lemma EndsAgree(env: Env, p: Prompt, t: Trace)
    ensures var f, s := Attempts(env, p), Beginning(t, p.step);
            var (a, whole) := Closed(env, p, Opened(t, p.step, 0), Kept(f, s, Made(f, s)), true);
            var (b, split) := Closed(env, p, TraceDuring(env, p, t, Made(f, s)), Afresh(f, s, Made(f, s)), false);
      Refines(env, p, t, a, whole, b, split, ThirdReplied(env, p, t) || Retained(env, p, t) == NO_RESPONSE)
  {
    var f, s := Attempts(env, p), Beginning(t, p.step);
    var k := Made(f, s);
    AttemptsForget(env, p);
    AgreeAtEnd(f, Replies(env), s, k);
    assert Kept(f, s, k).used == k;
    ClosedAgree(env, p, t, TraceDuring(env, p, t, k), Kept(f, s, k), Afresh(f, s, k), Kept(f, s, k - 1).response);
  }

  // ----- where the snapshots differ -----

  /** A model that answers once and then is down; no answer is accepted. */
  function Flaky(): Env {
    Env((requests: seq<Request>) => if |requests| == 1 then Replied("x", "") else Raised("down"),
        (text: string) => Rejected("bad"),
        (step: StepCode, data: Output) => "",
        (p: Prompt, data: Output) => Accepted(data),
        (data: Output) => None,
        (step: StepCode, attempt: nat, error: string) => error,
        (error: string) => error,
        (step: StepCode, data: Output) => data)
  }

  /** The whole step reports the length of the one answer it got, the split step reports none. */
  lemma FlakySnapshotsDiffer(p: Prompt)
    ensures var whole := WholeStep(Flaky(), p, Trace([], [])).1;
            var split := SplitStep(Flaky(), p, Trace([], []), 1, None).1;
      whole.Exhausted? && split.Exhausted? && whole.snapshot != split.snapshot
  {
    FlakyAttempts(p);
    WholeUnfolds(Flaky(), p, Trace([], []));
    SplitStepRefinesWhole(Flaky(), p, Trace([], []));
  }

  lemma FlakyAttempts(p: Prompt)
    ensures var t, f := Trace([], []), Attempts(Flaky(), p);
      && !ThirdReplied(Flaky(), p, t) && Retained(Flaky(), p, t) == Seen("x", "")
      && Made(f, Beginning(t, p.step)) == 3 && Kept(f, Beginning(t, p.step), 3).parsed.None?
  {
    var s, f := Beginning(Trace([], []), p.step), Attempts(Flaky(), p);
    FlakyAttempt(p, s, 1);
    FlakyAttempt(p, Kept(f, s, 1), 2);
    FlakyAttempt(p, Kept(f, s, 2), 3);
  }

  lemma FlakyAttempt(p: Prompt, s: Attempting, k: nat)
    requires s.parsed.None?
    ensures var next := Attempt(Flaky(), p, s, k);
      && |next.requests| == |s.requests| + 1 && next.parsed.None?
      && next.response == (if s.requests == [] then Seen("x", "") else s.response)
  {
    var requests := s.requests + [Request(p, s.feedback)];
    assert Judge(Flaky(), p, Flaky().model(requests)).Rejected?;
  }

  /** Every step's result has exactly its own keys, so each step reads back from the merged results what it needs. */
  lemma PicksResults(source: Output, derived: Output)
    requires source.Keys == ResultKeys(SourceSelection) && derived.Keys == ResultKeys(DerivedDesign)
    ensures PromptFrom(SampleGeneration, source + derived) == Prompt(SampleGeneration, source, derived)
    ensures Pick(source + derived, ResultKeys(SourceSelection)) == source
    ensures Pick(source + derived, ResultKeys(DerivedDesign)) == derived
  {}

  lemma ParsedKeys(env: Env, p: Prompt, t: Trace)
    ensures var (_, r) := WholeStep(env, p, t); r.Parsed? ==> r.data.Keys == ResultKeys(p.step)
  {
    WholeUnfolds(env, p, t);
  }

  /** Two results of a failed step that differ at most in the response kept in the snapshot. */
  predicate SameFailure(whole: StepResult, split: StepResult) {
    && whole.Exhausted? && split.Exhausted?
    && split.error == whole.error && split.feedback == whole.feedback
    && split.snapshot.(response := whole.snapshot.response) == whole.snapshot
  }

  predicate SameFlow(a: Trace, whole: FlowResult, b: Trace, split: FlowResult) {
    && a.requests == b.requests
    && match whole
       case StepExhausted(result) =>
         && split.StepExhausted? && SameFailure(result, split.result) && |a.events| == |b.events| > 0
         && a.events[..|a.events| - 1] == b.events[..|b.events| - 1]
         && a.events[|a.events| - 1] == StepFailed(result.snapshot.step, result.snapshot)
         && b.events[|b.events| - 1] == StepFailed(result.snapshot.step, split.result.snapshot)
       case _ => split == whole && a == b
  }

  lemma StepsMatch(env: Env, p: Prompt, t: Trace)
    ensures var (a, whole) := WholeStep(env, p, t); var (b, split) := SplitStep(env, p, t, 1, None);
      && (whole.Parsed? ==> split == whole && a == b && whole.data.Keys == ResultKeys(p.step))
      && (whole.Exhausted? ==> SameFlow(a, StepExhausted(whole), b, StepExhausted(split)))
  {
    SplitStepRefinesWhole(env, p, t);
    ParsedKeys(env, p, t);
  }

  lemma SampleMatches(env: Env, t: Trace, source: Output, derived: Output)
    requires source.Keys == ResultKeys(SourceSelection) && derived.Keys == ResultKeys(DerivedDesign)
    ensures var (a, whole) := SampleFlow(env, t, source, derived);
      var (b, split) := SplitFlow(env, t, source + derived, 2);
      SameFlow(a, whole, b, split)
  {
    PicksResults(source, derived);
    StepsMatch(env, Prompt(SampleGeneration, source, derived), t);
  }

  lemma SplitFlowOpens(env: Env, t: Trace, merged: Output, i: nat, p: Prompt)
    requires i < 2 && p == PromptFrom(STEPS[i], merged)
    ensures var (next, result) := SplitStep(env, p, t, 1, None);
      SplitFlow(env, t, merged, i)
      == if result.Exhausted? then (next, StepExhausted(result)) else SplitFlow(env, next, merged + result.data, i + 1)
  {}

  lemma DerivedMatches(env: Env, t: Trace, source: Output)
    requires source.Keys == ResultKeys(SourceSelection)
    ensures var (a, whole) := DerivedFlow(env, t, source); var (b, split) := SplitFlow(env, t, source, 1);
      SameFlow(a, whole, b, split)
  {
    var p := Prompt(DerivedDesign, source, map[]);
    assert PromptFrom(DerivedDesign, source) == p;
    SplitFlowOpens(env, t, source, 1, p);
    StepsMatch(env, p, t);
    var (next, derived) := WholeStep(env, p, t);
    if derived.Parsed? { SampleMatches(env, next, source, derived.data); }
  }

  /**
   Run by invocations of one attempt each, data selection asks the model the same questions in
   the same order, reports the same step events and ends the same way as run in one call.
   */
  lemma SplitFlowRefinesWhole(env: Env, t: Trace)
    ensures var (a, whole) := WholeFlow(env, t); var (b, split) := SplitFlow(env, t, map[], 0);
      SameFlow(a, whole, b, split)
  {
    var p := Prompt(SourceSelection, map[], map[]);
    SplitFlowOpens(env, t, map[], 0, p);
    StepsMatch(env, p, t);
    var (next, source) := WholeStep(env, p, t);
    if source.Parsed? {
      assert map[] + source.data == source.data;
      DerivedMatches(env, next, source.data);
    }
  }
}
