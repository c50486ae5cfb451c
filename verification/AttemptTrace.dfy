/**
 What a prompt step asks the model, stated on the requests themselves: every request after the
 first carries the feedback on the reply before it, the step stops at the first accepted reply, and
 its result is read off the last reply.  The same of the step split into one invocation per attempt,
 and of the three steps of a whole selection.
 */
module AttemptTrace {
  import opened Values
  import opened SelectionRetry

  // ----- replies -----

  /** The verdict on the reply to the last of these requests. */
  function Verdict(env: Env, p: Prompt, requests: seq<Request>): Check { Judge(env, p, env.model(requests)) }

  /** A reply is accepted when it parses to exactly the step's keys and passes the contract, which may rewrite. */
  lemma VerdictMeans(env: Env, p: Prompt, requests: seq<Request>)
    ensures var reply, verdict := env.model(requests), Verdict(env, p, requests);
      if reply.Raised? then verdict == Rejected(reply.error)
      else if env.parse(reply.text).Rejected? then verdict == env.parse(reply.text)
      else
        var parsed := env.parse(reply.text).data; var checked := env.contract(p, parsed);
        if parsed.Keys != ResultKeys(p.step) then verdict == Rejected(env.keyError(p.step, parsed))
        else if checked.Rejected? then verdict == checked
        else
          && verdict.Accepted? && verdict.data.Keys == parsed.Keys
          && forall k | k in parsed :: verdict.data[k] == if k in checked.data then checked.data[k] else parsed[k]
  {}

  /** What was seen of the last reply that came back to the requests from `n` on, or before. */
  function Heard(env: Env, n: nat, requests: seq<Request>, earlier: Response): Response
    decreases |requests|
  {
    if |requests| <= n then earlier
    else
      var reply := env.model(requests);
      if reply.Replied? then Seen(reply.text, reply.finish)
      else Heard(env, n, requests[..|requests| - 1], earlier)
  }

  /** The length of a reply, its first 2000 characters, and its finish reason, each when there is one. */
  lemma SeenMeans(text: string, finish: string)
    ensures var r := Seen(text, finish);
      && r.length == |text| && (r.excerpt.None? <==> text == "") && (r.finish.None? <==> finish == "")
      && (r.excerpt.Some? ==> r.excerpt.value <= text && (|text| <= 2000 || |r.excerpt.value| == 2000))
      && (r.excerpt.Some? && |text| <= 2000 ==> r.excerpt.value == text)
      && (r.finish.Some? ==> r.finish.value == finish)
  {}

  // ----- the requests of one step -----

  /**
   The requests from `n` on put one prompt, first with the feedback given, and after every rejected
   reply with the feedback on it; `offset` attempts were made before.
   */
  ghost predicate Asks(env: Env, p: Prompt, requests: seq<Request>, n: nat, offset: nat, feedback: Option<string>) {
    && n <= |requests|
    && (n < |requests| ==> requests[n] == Request(p, feedback))
    && forall i | n < i < |requests| ::
         Verdict(env, p, requests[..i]).Rejected? && requests[i]
         == Request(p, Some(env.feedback(p.step, offset + i - n, Verdict(env, p, requests[..i]).error)))
  }

  /** The state the attempts end in is read off the replies to the requests from `n` on. */
  predicate Ends(env: Env, p: Prompt, s: Attempting, n: nat, offset: nat, f: Attempting) {
    if |f.requests| <= n then f == s
    else
      && f.used == offset + |f.requests| - n
      && match Verdict(env, p, f.requests)
         case Accepted(data) => f.parsed == Some(data)
         case Rejected(e) =>
           f.parsed.None? && f.error == Some(e) && f.feedback == Some(env.feedback(p.step, f.used, e))
  }

  /** One attempt adds one request and notes what came of it. */
  predicate Attempted(env: Env, p: Prompt, s: Attempting, attempt: nat, next: Attempting) {
    && next.requests == s.requests + [Request(p, s.feedback)] && next.used == attempt
    && match Verdict(env, p, next.requests)
       case Accepted(data) => next.parsed == Some(data)
       case Rejected(e) =>
         next.parsed.None? && next.error == Some(e) && next.feedback == Some(env.feedback(p.step, attempt, e))
  }

  lemma AttemptOnce(env: Env, p: Prompt, s: Attempting, attempt: nat)
    requires s.parsed.None?
    ensures Attempted(env, p, s, attempt, Attempt(env, p, s, attempt))
  {}

  lemma AsksFrom(
    env: Env, p: Prompt, requests: seq<Request>, n: nat, offset: nat, feedback: Option<string>, error: string)
    requires n < |requests| && requests[n] == Request(p, feedback)
    requires Verdict(env, p, requests[..n + 1]) == Rejected(error)
    requires Asks(env, p, requests, n + 1, offset + 1, Some(env.feedback(p.step, offset + 1, error)))
    ensures Asks(env, p, requests, n, offset, feedback)
  {
    forall i | n < i < |requests|
      ensures Verdict(env, p, requests[..i]).Rejected? && requests[i]
           == Request(p, Some(env.feedback(p.step, offset + i - n, Verdict(env, p, requests[..i]).error)))
    {
      if i > n + 1 { assert offset + 1 + i - (n + 1) == offset + i - n; }
    }
  }

  /** The attempts extend the requests by at most `left`, and by fewer only when a reply is accepted. */
  ghost predicate Runs(env: Env, p: Prompt, s: Attempting, offset: nat, left: nat, f: Attempting) {
    && s.requests <= f.requests && |f.requests| <= |s.requests| + left
    && Asks(env, p, f.requests, |s.requests|, offset, s.feedback)
    && Ends(env, p, s, |s.requests|, offset, f)
    && (|f.requests| < |s.requests| + left ==> f.parsed.Some?)
  }

  /** A rejected attempt and a run from there make a run. */
  lemma RunsOn(env: Env, p: Prompt, s: Attempting, offset: nat, left: nat, next: Attempting, f: Attempting)
    requires Attempted(env, p, s, offset + 1, next) && next.parsed.None? && left > 0
    requires Runs(env, p, next, offset + 1, left - 1, f)
    ensures Runs(env, p, s, offset, left, f)
  {
    assert f.requests[..|s.requests| + 1] == next.requests;
    AsksFrom(env, p, f.requests, |s.requests|, offset, s.feedback, Verdict(env, p, next.requests).error);
  }

  lemma RunsOnce(env: Env, p: Prompt, s: Attempting, offset: nat, left: nat, next: Attempting)
    requires Attempted(env, p, s, offset + 1, next) && next.parsed.Some? && left > 0
    ensures Runs(env, p, s, offset, left, next)
  {}

  /** The attempts begin with one and go on from there. */
  lemma RetryingFirst(env: Env, p: Prompt, s: Attempting, attempt: nat, left: nat) returns (next: Attempting)
    requires s.parsed.None? && left > 0
    ensures Attempted(env, p, s, attempt, next) && next.response == Heard(env, |s.requests|, next.requests, s.response)
    ensures Retrying(env, p, s, attempt, left) == Retrying(env, p, next, attempt + 1, left - 1)
    ensures next.parsed.Some? ==> Retrying(env, p, s, attempt, left) == next
  {
    next := Attempt(env, p, s, attempt);
    AttemptOnce(env, p, s, attempt);
    AttemptHears(env, p, s, attempt);
    RetryingNext(env, p, s, attempt, left);
    RetryingNext(env, p, next, attempt + 1, left - 1);
  }

  lemma AttemptHears(env: Env, p: Prompt, s: Attempting, attempt: nat)
    ensures var next := Attempt(env, p, s, attempt);
      next.response == Heard(env, |s.requests|, next.requests, s.response)
  {
    var requests := Attempt(env, p, s, attempt).requests;
    assert Heard(env, |s.requests|, requests[..|s.requests|], s.response) == s.response;
  }

  lemma {:induction false} RetryingAsks(env: Env, p: Prompt, s: Attempting, attempt: nat, left: nat, f: Attempting)
    requires attempt >= 1 && s.parsed.None? && f == Retrying(env, p, s, attempt, left)
    ensures Runs(env, p, s, attempt - 1, left, f)
    decreases left
  {
    if left > 0 {
      var next := RetryingFirst(env, p, s, attempt, left);
      if next.parsed.None? {
        RetryingAsks(env, p, next, attempt + 1, left - 1, f);
        RunsOn(env, p, s, attempt - 1, left, next, f);
      } else {
        RunsOnce(env, p, s, attempt - 1, left, next);
      }
    }
  }

  lemma {:induction false} HeardSplit(env: Env, n: nat, requests: seq<Request>, earlier: Response)
    requires n < |requests|
    ensures Heard(env, n, requests, earlier)
         == Heard(env, n + 1, requests, Heard(env, n, requests[..n + 1], earlier))
    decreases |requests|
  {
    var m := |requests| - 1;
    if m > n {
      HeardSplit(env, n, requests[..m], earlier);
      assert requests[..m][..n + 1] == requests[..n + 1];
    } else {
      assert requests[..n + 1] == requests;
    }
  }

  lemma HeardJoin(env: Env, n: nat, first: seq<Request>, requests: seq<Request>, earlier: Response)
    requires |first| == n + 1 && first <= requests
    ensures Heard(env, n, requests, earlier) == Heard(env, n + 1, requests, Heard(env, n, first, earlier))
  {
    assert requests[..n + 1] == first;
    HeardSplit(env, n, requests, earlier);
  }

  lemma {:induction false} RetryingHears(env: Env, p: Prompt, s: Attempting, attempt: nat, left: nat, f: Attempting)
    requires attempt >= 1 && s.parsed.None? && f == Retrying(env, p, s, attempt, left)
    ensures f.response == Heard(env, |s.requests|, f.requests, s.response)
    decreases left
  {
    if left > 0 {
      var next := RetryingFirst(env, p, s, attempt, left);
      if next.parsed.None? {
        RetryingHears(env, p, next, attempt + 1, left - 1, f);
        RetryingAsks(env, p, next, attempt + 1, left - 1, f);
        HeardJoin(env, |s.requests|, next.requests, f.requests, s.response);
      }
    }
  }

  // ----- the result of one step -----

  /** The result of a step whose requests from `n` on these are, with `offset` attempts made before. */
  predicate Concludes(
    env: Env, p: Prompt, requests: seq<Request>, n: nat, offset: nat, feedback: Option<string>, result: StepResult)
  {
    if |requests| <= n then
      && result.Exhausted? && result.error == None && result.feedback == feedback
      && result.snapshot == Snapshot(p.step, [], None, 0, NO_RESPONSE)
    else
      var attempts := offset + |requests| - n;
      match Verdict(env, p, requests)
      case Accepted(data) => result == Parsed(data)
      case Rejected(e) =>
        && result.Exhausted? && result.error == Some(e) && result.feedback == Some(env.feedback(p.step, attempts, e))
        && result.snapshot == Snapshot(p.step, if e == "" then [] else [env.humanize(e)], Some(e), attempts,
                                       Heard(env, n, requests, NO_RESPONSE))
  }

  /** The events of a step: RUNNING on the first attempt ever, then COMPLETED, or FAILED when it is given up. */
  function StepEvents(
    env: Env, p: Prompt, offset: nat, attempts: nat, raises: bool, result: StepResult): seq<StepEvent>
  {
    (if offset == 0 then [StepRunning(p.step)] else [])
    + match result
      case Parsed(data) => [StepCompleted(p.step, env.summary(p.step, data))]
      case Exhausted(_, _, snapshot) =>
        if raises || attempts >= TOTAL_ATTEMPTS then [StepFailed(p.step, snapshot)] else []
  }

  lemma StepEventsAppend(events: seq<StepEvent>, a: seq<StepEvent>, b: seq<StepEvent>)
    ensures events + (a + b) == events + a + b
  {}

  /**
   The step asks as long as replies are rejected, each time with the feedback on the reply before, up
   to its limit, and its result is that of the last reply.
   */
  ghost predicate Conversed(
    env: Env, p: Prompt, before: seq<Request>, limit: nat, offset: nat, feedback: Option<string>,
    after: seq<Request>, result: StepResult)
  {
    && before <= after && |after| <= |before| + limit
    && Asks(env, p, after, |before|, offset, feedback)
    && Concludes(env, p, after, |before|, offset, feedback, result)
    && (|after| < |before| + limit ==> result.Parsed?)
  }

  lemma ClosedConcludes(
    env: Env, p: Prompt, t: Trace, s: Attempting, f: Attempting, limit: nat, offset: nat, raises: bool,
    after: Trace, result: StepResult)
    requires s == Start(t, s.feedback) && Runs(env, p, s, offset, limit, f)
    requires f.response == Heard(env, |s.requests|, f.requests, NO_RESPONSE)
    requires (after, result) == Closed(env, p, t, f, raises)
    ensures Conversed(env, p, t.requests, limit, offset, s.feedback, after.requests, result)
  {}

  lemma StepCloses(env: Env, p: Prompt, t: Trace, limit: nat, offset: nat, feedback: Option<string>, raises: bool)
    returns (begun: Trace, f: Attempting)
    ensures begun == Opened(t, p.step, offset) && f == Retrying(env, p, Start(begun, feedback), 1 + offset, limit)
    ensures PromptStep(env, p, t, limit, offset, feedback, raises) == Closed(env, p, begun, f, raises)
  {
    begun := Opened(t, p.step, offset);
    f := Retrying(env, p, Start(begun, feedback), 1 + offset, limit);
  }

  /** A step is a run of attempts and one closing. */
  lemma StepRuns(env: Env, p: Prompt, t: Trace, limit: nat, offset: nat, feedback: Option<string>, raises: bool)
    returns (f: Attempting)
    ensures var begun := Opened(t, p.step, offset); var s := Start(begun, feedback);
      && Runs(env, p, s, offset, limit, f) && f.response == Heard(env, |t.requests|, f.requests, NO_RESPONSE)
      && PromptStep(env, p, t, limit, offset, feedback, raises) == Closed(env, p, begun, f, raises)
  {
    var begun;
    begun, f := StepCloses(env, p, t, limit, offset, feedback, raises);
    RetryingAsks(env, p, Start(begun, feedback), 1 + offset, limit, f);
    RetryingHears(env, p, Start(begun, feedback), 1 + offset, limit, f);
  }

  lemma StepAsks(env: Env, p: Prompt, t: Trace, limit: nat, offset: nat, feedback: Option<string>, raises: bool)
    ensures var (after, result) := PromptStep(env, p, t, limit, offset, feedback, raises);
      Conversed(env, p, t.requests, limit, offset, feedback, after.requests, result)
  {
    var f := StepRuns(env, p, t, limit, offset, feedback, raises);
    var begun := Opened(t, p.step, offset);
    var (after, result) := Closed(env, p, begun, f, raises);
    ClosedConcludes(env, p, begun, Start(begun, feedback), f, limit, offset, raises, after, result);
  }

  lemma ClosedReports(env: Env, p: Prompt, t: Trace, f: Attempting, offset: nat, raises: bool)
    ensures var (after, result) := Closed(env, p, Opened(t, p.step, offset), f, raises);
      after.events == t.events + StepEvents(env, p, offset, f.used, raises, result)
  {
    var (after, result) := Closed(env, p, Opened(t, p.step, offset), f, raises);
    var opening := if offset == 0 then [StepRunning(p.step)] else [];
    assert Opened(t, p.step, offset).events == t.events + opening;
    var closing := match result
      case Parsed(data) => [StepCompleted(p.step, env.summary(p.step, data))]
      case Exhausted(_, _, snapshot) =>
        if raises || f.used >= TOTAL_ATTEMPTS then [StepFailed(p.step, snapshot)] else [];
    StepEventsAppend(t.events, opening, closing);
    assert after.events == t.events + opening + closing;
  }

  /** How many attempts have been made once these are the requests. */
  function AttemptsMade(requests: seq<Request>, n: nat, offset: nat): nat {
    if |requests| <= n then 0 else offset + |requests| - n
  }

  /** What the step reports besides. */
  lemma StepReports(
    env: Env, p: Prompt, t: Trace, limit: nat, offset: nat, feedback: Option<string>, raises: bool)
    ensures var (after, result) := PromptStep(env, p, t, limit, offset, feedback, raises);
      after.events == t.events
        + StepEvents(env, p, offset, AttemptsMade(after.requests, |t.requests|, offset), raises, result)
  {
    var f := StepRuns(env, p, t, limit, offset, feedback, raises);
    ClosedReports(env, p, t, f, offset, raises);
  }

  // ----- the split step and the whole selection -----

  /** The requests from `n` on are those of one step: at least one, at most three, until one is accepted. */
  ghost predicate StepPart(env: Env, p: Prompt, requests: seq<Request>, n: nat) {
    && n < |requests| <= n + TOTAL_ATTEMPTS && Asks(env, p, requests, n, 0, None)
    && (|requests| < n + TOTAL_ATTEMPTS ==> Verdict(env, p, requests).Accepted?)
  }

  /** The step's result is the accepted data of the last reply, or the error and feedback of its rejection. */
  predicate StepEnds(env: Env, p: Prompt, requests: seq<Request>, n: nat, result: StepResult) {
    match Verdict(env, p, requests)
    case Accepted(data) => result == Parsed(data)
    case Rejected(e) =>
      && result.Exhausted? && result.error == Some(e)
      && |requests| >= n && result.feedback == Some(env.feedback(p.step, |requests| - n, e))
  }

  lemma WholeStepAsks(env: Env, p: Prompt, t: Trace)
    ensures var (after, result) := WholeStep(env, p, t);
      && t.requests <= after.requests && StepPart(env, p, after.requests, |t.requests|)
      && StepEnds(env, p, after.requests, |t.requests|, result)
  {
    StepAsks(env, p, t, TOTAL_ATTEMPTS, 0, None, true);
    var (after, result) := WholeStep(env, p, t);
    ConversedPart(env, p, t.requests, after.requests, result);
  }

  lemma ConversedPart(env: Env, p: Prompt, before: seq<Request>, after: seq<Request>, result: StepResult)
    requires Conversed(env, p, before, TOTAL_ATTEMPTS, 0, None, after, result)
    ensures StepPart(env, p, after, |before|) && StepEnds(env, p, after, |before|, result)
  {}

  /** Split into one invocation per attempt the step asks and ends in the same way. */
  lemma SplitStepAsks(env: Env, p: Prompt, t: Trace)
    ensures var (after, result) := SplitStep(env, p, t, 1, None);
      && t.requests <= after.requests && StepPart(env, p, after.requests, |t.requests|)
      && StepEnds(env, p, after.requests, |t.requests|, result)
  {
    WholeStepAsks(env, p, t);
    SplitStepRefinesWhole(env, p, t);
  }

  const SOURCE_PROMPT := Prompt(SourceSelection, map[], map[])

  /** The last two steps: the design sees the source selection, the sample sees both. */
  ghost predicate TailConversed(
    env: Env, source: Output, requests: seq<Request>, n: nat, j: nat, result: FlowResult)
  {
    n <= j <= |requests| &&
    var p := Prompt(DerivedDesign, source, map[]);
    && StepPart(env, p, requests[..j], n)
    && match Verdict(env, p, requests[..j])
       case Rejected(e) => j == |requests| && result.StepExhausted? && StepEnds(env, p, requests, n, result.result)
       case Accepted(derived) => SampleConversed(env, source, derived, requests, j, result)
  }

  ghost predicate SampleConversed(
    env: Env, source: Output, derived: Output, requests: seq<Request>, n: nat, result: FlowResult)
  {
    var p := Prompt(SampleGeneration, source, derived);
    && StepPart(env, p, requests, n)
    && match Verdict(env, p, requests)
       case Rejected(e) => result.StepExhausted? && StepEnds(env, p, requests, n, result.result)
       case Accepted(sample) =>
         result == match env.final(source + derived + sample)
                   case None => Merged(source + derived + sample)
                   case Some(error) => ContractFailed(error)
  }

  lemma SampleAsks(env: Env, t: Trace, source: Output, derived: Output)
    ensures var (after, result) := SampleFlow(env, t, source, derived);
      t.requests <= after.requests && SampleConversed(env, source, derived, after.requests, |t.requests|, result)
  {
    WholeStepAsks(env, Prompt(SampleGeneration, source, derived), t);
  }

  lemma DerivedAsks(env: Env, t: Trace, source: Output) returns (j: nat)
    ensures var (after, result) := DerivedFlow(env, t, source);
      t.requests <= after.requests && TailConversed(env, source, after.requests, |t.requests|, j, result)
  {
    var p := Prompt(DerivedDesign, source, map[]);
    WholeStepAsks(env, p, t);
    var (next, derived) := WholeStep(env, p, t);
    j := |next.requests|;
    if derived.Parsed? {
      SampleAsks(env, next, source, derived.data);
      var (after, result) := SampleFlow(env, next, source, derived.data);
      assert after.requests[..j] == next.requests;
    } else {
      assert next.requests[..j] == next.requests;
    }
  }

  /**
   A whole selection asks for the source columns until a reply is accepted, then, showing it that
   reply's data, for the derived columns, then, showing it both, for the sample; it delivers the data
   of the three accepted replies if together they pass the final check, and otherwise stops at the
   first step whose third reply is rejected.
   */
  lemma FlowAsks(env: Env, t: Trace) returns (i: nat, j: nat)
    ensures var (after, result) := WholeFlow(env, t); var n := |t.requests|;
      && t.requests <= after.requests && n <= i <= |after.requests|
      && StepPart(env, SOURCE_PROMPT, after.requests[..i], n)
      && match Verdict(env, SOURCE_PROMPT, after.requests[..i])
         case Rejected(_) =>
           i == |after.requests| && result.StepExhausted?
           && StepEnds(env, SOURCE_PROMPT, after.requests, n, result.result)
         case Accepted(source) => TailConversed(env, source, after.requests, i, j, result)
  {
    WholeStepAsks(env, SOURCE_PROMPT, t);
    var (next, source) := WholeStep(env, SOURCE_PROMPT, t);
    i, j := |next.requests|, |next.requests|;
    if source.Parsed? {
      j := DerivedAsks(env, next, source.data);
      var (after, result) := DerivedFlow(env, next, source.data);
      assert after.requests[..i] == next.requests;
    } else {
      assert next.requests[..i] == next.requests;
    }
  }
}
