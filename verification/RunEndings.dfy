/** Why a run ends: each stop reason, told by what the turns answered
    (crates/familiar-ai-agent/src/raw_runtime.rs, lines 889-1043). */
module RunEndings {
  import opened Wrappers
  import opened Transcript
  import opened ToolCalls
  import opened ToolJournal
  import opened StreamCollector
  import opened AgentLoop
  import opened LoopAccounting

  // ------------------------------------------------------------------
  // What a run has seen
  // ------------------------------------------------------------------

  /** The output tokens reported in the first n turns. */
  function KnownTokens(scripts: seq<TurnScript>, n: nat): nat
    requires n <= |scripts|
  {
    if n == 0 then 0
    else
      var submission := scripts[n - 1].submission;
      KnownTokens(scripts, n - 1)
      + if submission.Answered? && submission.outcome.usage.outputTokens.Some?
        then submission.outcome.usage.outputTokens.value else 0
  }

  function TextOf(config: Config, script: TurnScript): Option<string> {
    if script.submission.Answered?
    then Collect(config.parse, NOTHING_COLLECTED, script.submission.events).text else None
  }

  /** The last text received in the first n turns. */
  function LastText(config: Config, scripts: seq<TurnScript>, n: nat): Option<string>
    requires n <= |scripts|
  {
    if n == 0 then None
    else if TextOf(config, scripts[n - 1]).Some? then TextOf(config, scripts[n - 1])
    else LastText(config, scripts, n - 1)
  }

  predicate TokensReached(config: Config, scripts: seq<TurnScript>, n: nat)
    requires n <= |scripts|
  {
    config.maxOutputTokens.Some? && KnownTokens(scripts, n) >= config.maxOutputTokens.value
  }

  /** The nth turn is submitted, if the run reaches it. */
  predicate Submits(config: Config, scripts: seq<TurnScript>, n: nat)
    requires n < |scripts|
  {
    !scripts[n].cancelled && n < config.maxIterations && !TokensReached(config, scripts, n)
  }

  /** Answered without a completed call. */
  predicate Quiet(config: Config, script: TurnScript) {
    script.submission.Answered? && CallsServed(config, script) == []
  }

  predicate AnsweredWithCalls(config: Config, script: TurnScript) {
    script.submission.Answered? && CallsServed(config, script) != []
  }

  /** A valid call of the turn is refused in the way that closes the run. */
  ghost predicate ClosedIn(config: Config, calls: seq<ToolCallRequest>, scripts: seq<CallScript>) {
    exists i :: 0 <= i < |calls| && i < |scripts| && ClosedBy(config, calls[i], scripts[i])
  }

  predicate ClosedBy(config: Config, call: ToolCallRequest, script: CallScript) {
    Validate(call, config.offered).Success? && script.decision.Refused? && script.decision.continuation == StopClosed
  }

  /** The run goes on after the turn, if the process survives its calls: a provider's pause, or
      calls none of which closed the run. */
  ghost predicate GoesOn(config: Config, script: TurnScript) {
    || (Quiet(config, script) && script.submission.outcome.stop == PauseTurn)
    || (AnsweredWithCalls(config, script) && !ClosedIn(config, CallsServed(config, script), script.calls))
  }

  /** The first n turns were submitted, and the run went on after each. */
  ghost predicate WentOn(config: Config, scripts: seq<TurnScript>, n: nat) {
    n <= |scripts| && forall t :: 0 <= t < n ==> Submits(config, scripts, t) && GoesOn(config, scripts[t])
  }

  // ------------------------------------------------------------------
  // What each ending means
  // ------------------------------------------------------------------

  /** After n turns the next one is looked at, and not submitted. */
  ghost predicate StopsBefore(config: Config, scripts: seq<TurnScript>, n: nat) {
    WentOn(config, scripts, n) && n < |scripts|
  }

  /** The last of n turns was submitted and the run does not go on after it. */
  ghost predicate StopsAfter(config: Config, scripts: seq<TurnScript>, n: nat) {
    && 0 < n <= |scripts| && WentOn(config, scripts, n - 1) && Submits(config, scripts, n - 1)
    && !GoesOn(config, scripts[n - 1])
  }

  ghost predicate QuietAfter(config: Config, scripts: seq<TurnScript>, n: nat, stops: set<AdapterStop>) {
    StopsAfter(config, scripts, n) && Quiet(config, scripts[n - 1]) && scripts[n - 1].submission.outcome.stop in stops
  }

  const FINISHING := {EndTurn, ContentFilter, StopSequence}

  /** Structured output was asked for and no text was received. */
  predicate LacksOutput(config: Config, scripts: seq<TurnScript>, n: nat)
    requires n <= |scripts|
  {
    config.structuredOutput && LastText(config, scripts, n).None?
  }

  ghost predicate FailedAfter(config: Config, scripts: seq<TurnScript>, n: nat, error: AdapterError) {
    StopsAfter(config, scripts, n) && scripts[n - 1].submission == Errored(error)
  }

  /** For a run that submitted n turns, the condition under which it ends for each reason. */
  ghost predicate EndsFor(config: Config, scripts: seq<TurnScript>, n: nat, reason: StopReason) {
    match reason
    case Cancelled => StopsBefore(config, scripts, n) && scripts[n].cancelled
    case IterationCeiling => StopsBefore(config, scripts, n) && !scripts[n].cancelled && n >= config.maxIterations
    case TokenOrContextCeiling =>
      || (StopsBefore(config, scripts, n) && !scripts[n].cancelled && n < config.maxIterations
          && TokensReached(config, scripts, n))
      || QuietAfter(config, scripts, n, {MaxTokens})
    case Completed(structuredOutput) =>
      && QuietAfter(config, scripts, n, FINISHING) && !LacksOutput(config, scripts, n)
      && structuredOutput == config.structuredOutput
    case InvalidStructuredOutput =>
      || QuietAfter(config, scripts, n, {ToolUse})
      || (QuietAfter(config, scripts, n, FINISHING) && LacksOutput(config, scripts, n))
    case Timeout => StopsAfter(config, scripts, n) && scripts[n - 1].submission.NoAnswer? && config.wallClock
    case ProviderFailure(AmbiguousFailure) => FailedAfter(config, scripts, n, Ambiguous)
    case ProviderFailure(RetryableFailure) => FailedAfter(config, scripts, n, Retryable)
    case ProviderFailure(NonRetryableFailure) =>
      FailedAfter(config, scripts, n, NonRetryable) || QuietAfter(config, scripts, n, {AdapterStop.Refusal})
    case FatalToolRefusal => StopsAfter(config, scripts, n) && AnsweredWithCalls(config, scripts[n - 1])
  }

  /** The last of n turns issued calls, and the process may have died serving them. */
  ghost predicate ServesCalls(config: Config, scripts: seq<TurnScript>, n: nat) {
    && 0 < n <= |scripts| && WentOn(config, scripts, n - 1) && Submits(config, scripts, n - 1)
    && AnsweredWithCalls(config, scripts[n - 1])
  }

  /** The scripts ran out, or an answer never came and there was no deadline. */
  ghost predicate DiesWaiting(config: Config, scripts: seq<TurnScript>, n: nat) {
    || (WentOn(config, scripts, n) && n == |scripts|)
    || (StopsAfter(config, scripts, n) && scripts[n - 1].submission.NoAnswer? && !config.wallClock)
  }

  /** The attempt a submission is reported as: what was billed if it was answered, one in doubt
      if it may have been, and none if it failed for certain. */
  predicate BilledAs(config: Config, attempts: seq<Attempt>, n: nat, submission: Submission) {
    match submission
    case Answered(_, outcome) =>
      n < |attempts| && attempts[n] == Attempt(n + 1, outcome.usage, false, outcome.requestId)
    case Errored(error) =>
      if error == Ambiguous then n < |attempts| && attempts[n] == Attempt(n + 1, Usage(None), true, None)
      else |attempts| <= n
    case NoAnswer =>
      if config.wallClock then n < |attempts| && attempts[n] == Attempt(n + 1, Usage(None), true, None)
      else |attempts| <= n
  }

  /** What the run reports of the n turns it submitted. */
  ghost predicate Told(config: Config, scripts: seq<TurnScript>, s: LoopState) {
    var n := |s.requests|;
    && n <= |scripts| && s.finalText == LastText(config, scripts, n) && s.outputTokens == KnownTokens(scripts, n)
    && |s.attempts| <= n && forall k :: 0 <= k < n ==> BilledAs(config, s.attempts, k, scripts[k].submission)
  }

  /** The process dies serving calls, or waiting; and unless it died serving calls, the run
      stops for a reason exactly when that reason's condition holds. */
  ghost predicate EndsAsDue(config: Config, scripts: seq<TurnScript>, end: LoopState, ending: Ending) {
    var n := |end.requests|;
    var diedServing := ending.Died? && ServesCalls(config, scripts, n);
    && Told(config, scripts, end)
    && (ending.Died? <==> diedServing || DiesWaiting(config, scripts, n))
    && forall reason :: ending == Stopped(reason) <==> !diedServing && EndsFor(config, scripts, n, reason)
  }

  // ------------------------------------------------------------------
  // One pass
  // ------------------------------------------------------------------

  lemma {:induction false} ClosedExactly(
    config: Config, b: BatchEffect, calls: seq<ToolCallRequest>, scripts: seq<CallScript>)
    ensures var end := ServeCalls(config, b, calls, scripts);
            !end.died ==> (end.fatal <==> b.fatal || ClosedIn(config, calls, scripts))
    decreases |calls|
  {
    if !b.died && calls != [] && scripts != [] {
      var next := ServeOne(config, b, calls[0], scripts[0]);
      ClosedExactly(config, next, calls[1..], scripts[1..]);
      OneCallCloses(config, b, calls[0], scripts[0]);
      if next.died {
        assert ServeCalls(config, next, calls[1..], scripts[1..]) == next;
      }
      ClosedFront(config, calls, scripts);
    }
  }

  lemma OneCallCloses(config: Config, b: BatchEffect, call: ToolCallRequest, script: CallScript)
    ensures var next := ServeOne(config, b, call, script);
            !next.died ==> (next.fatal <==> b.fatal || ClosedBy(config, call, script))
  {
  }

  lemma ClosedFront(config: Config, calls: seq<ToolCallRequest>, scripts: seq<CallScript>)
    requires calls != [] && scripts != []
    ensures ClosedIn(config, calls, scripts)
            <==> ClosedBy(config, calls[0], scripts[0]) || ClosedIn(config, calls[1..], scripts[1..])
  {
    if ClosedIn(config, calls[1..], scripts[1..]) {
      var i :| 0 <= i < |calls[1..]| && i < |scripts[1..]| && ClosedBy(config, calls[1..][i], scripts[1..][i]);
      assert ClosedBy(config, calls[i + 1], scripts[i + 1]);
    }
    if i :| 0 <= i < |calls| && i < |scripts| && ClosedBy(config, calls[i], scripts[i]) {
      if i > 0 {
        assert ClosedBy(config, calls[1..][i - 1], scripts[1..][i - 1]);
      }
    }
  }

  /** Between two passes: every turn so far was submitted and the run went on. */
  ghost predicate Reached(config: Config, scripts: seq<TurnScript>, s: LoopState) {
    && |s.requests| == s.iterations == |s.attempts| && WentOn(config, scripts, |s.requests|)
    && Told(config, scripts, s)
  }

  /** A pass that goes on has reached the next turn; one that does not ends the run as due. */
  ghost predicate PassesOn(
    config: Config, scripts: seq<TurnScript>, s: LoopState, next: LoopState, ending: Option<Ending>)
  {
    && (ending.None? ==> Reached(config, scripts, next) && |next.requests| == |s.requests| + 1)
    && (ending.Some? ==> EndsAsDue(config, scripts, next, ending.value))
  }

  lemma UnsubmittedEnding(config: Config, s: LoopState, script: TurnScript)
    ensures var (next, ending) := Iterate(config, s, script);
            && (script.cancelled ==> next == s && ending == Some(Stopped(Cancelled)))
            && (!script.cancelled && s.iterations >= config.maxIterations ==>
                  next == s && ending == Some(Stopped(IterationCeiling)))
            && (!script.cancelled && s.iterations < config.maxIterations
                && config.maxOutputTokens.Some? && s.outputTokens >= config.maxOutputTokens.value ==>
                  next == s.(iterations := s.iterations + 1) && ending == Some(Stopped(TokenOrContextCeiling)))
  {
  }

  lemma UnsubmittedEnds(config: Config, scripts: seq<TurnScript>, s: LoopState)
    requires Reached(config, scripts, s) && |s.requests| < |scripts| && !Submits(config, scripts, |s.requests|)
    ensures var (next, ending) := Iterate(config, s, scripts[|s.requests|]);
            ending.Some? && EndsAsDue(config, scripts, next, ending.value)
  {
    var (next, ending) := Iterate(config, s, scripts[|s.requests|]);
    UnsubmittedEnding(config, s, scripts[|s.requests|]);
    StoppedEndsAsDue(config, scripts, next, ending.value);
  }

  lemma StoppedEndsAsDue(config: Config, scripts: seq<TurnScript>, end: LoopState, ending: Ending)
    requires var n := |end.requests|;
             n < |scripts| && WentOn(config, scripts, n) && !Submits(config, scripts, n) && Told(config, scripts, end)
    requires var n := |end.requests|;
             ending == Stopped(if scripts[n].cancelled then Cancelled
                               else if n >= config.maxIterations then IterationCeiling
                               else TokenOrContextCeiling)
    ensures EndsAsDue(config, scripts, end, ending)
  {
  }

  /** After the nth turn is submitted and answered, what is told covers it too. */
  lemma ReceivedIsTold(config: Config, scripts: seq<TurnScript>, s: LoopState)
    requires Reached(config, scripts, s) && |s.requests| < |scripts| && scripts[|s.requests|].submission.Answered?
    ensures var script := scripts[|s.requests|];
            var collected := Collect(config.parse, NOTHING_COLLECTED, script.submission.events);
            var received := Received(Submitted(config, s), collected, script.submission.outcome);
            && |received.requests| == received.iterations == |received.attempts| == |s.requests| + 1
            && Told(config, scripts, received)
  {
  }

  /** The turn that follows was submitted, and this is what the run reports after it. */
  ghost predicate Taken(config: Config, scripts: seq<TurnScript>, s: LoopState, n: nat) {
    && |s.requests| == n + 1 && n < |scripts| && WentOn(config, scripts, n) && Submits(config, scripts, n)
    && Told(config, scripts, s)
  }

  lemma UnansweredIsTaken(config: Config, scripts: seq<TurnScript>, s: LoopState)
    requires Reached(config, scripts, s) && |s.requests| < |scripts| && Submits(config, scripts, |s.requests|)
    requires !scripts[|s.requests|].submission.Answered?
    ensures var (next, ending) := Iterate(config, s, scripts[|s.requests|]);
            Taken(config, scripts, next, |s.requests|) && ending.Some?
  {
  }

  lemma UnansweredEnding(config: Config, s: LoopState, script: TurnScript)
    requires !script.cancelled && CeilingStop(config, s).None? && !script.submission.Answered?
    ensures var ending := Iterate(config, s, script).1;
            && (script.submission == Errored(Ambiguous) ==> ending == Some(Stopped(ProviderFailure(AmbiguousFailure))))
            && (script.submission == Errored(Retryable) ==> ending == Some(Stopped(ProviderFailure(RetryableFailure))))
            && (script.submission == Errored(NonRetryable) ==>
                  ending == Some(Stopped(ProviderFailure(NonRetryableFailure))))
            && (script.submission.NoAnswer? ==> ending == Some(if config.wallClock then Stopped(Timeout) else Died))
  {
  }

  lemma UnansweredEnds(config: Config, scripts: seq<TurnScript>, s: LoopState)
    requires Reached(config, scripts, s) && |s.requests| < |scripts| && Submits(config, scripts, |s.requests|)
    requires !scripts[|s.requests|].submission.Answered?
    ensures var (next, ending) := Iterate(config, s, scripts[|s.requests|]);
            ending.Some? && EndsAsDue(config, scripts, next, ending.value)
  {
    var (next, ending) := Iterate(config, s, scripts[|s.requests|]);
    UnansweredIsTaken(config, scripts, s);
    UnansweredEnding(config, s, scripts[|s.requests|]);
    FailureEndsAsDue(config, scripts, next, |s.requests|, ending.value);
  }

  lemma FailureEndsAsDue(config: Config, scripts: seq<TurnScript>, end: LoopState, n: nat, ending: Ending)
    requires Taken(config, scripts, end, n) && !scripts[n].submission.Answered?
    requires ending == match scripts[n].submission
                       case Errored(Ambiguous) => Stopped(ProviderFailure(AmbiguousFailure))
                       case Errored(Retryable) => Stopped(ProviderFailure(RetryableFailure))
                       case Errored(NonRetryable) => Stopped(ProviderFailure(NonRetryableFailure))
                       case _ => if config.wallClock then Stopped(Timeout) else Died
    ensures EndsAsDue(config, scripts, end, ending)
  {
  }

  /** What a quiet turn leads to; none means that the run goes on. */
  ghost predicate QuietLeadsTo(config: Config, text: Option<string>, stop: AdapterStop, ending: Option<Ending>) {
    match stop
    case PauseTurn => ending.None?
    case MaxTokens => ending == Some(Stopped(TokenOrContextCeiling))
    case ToolUse => ending == Some(Stopped(InvalidStructuredOutput))
    case Refusal => ending == Some(Stopped(ProviderFailure(NonRetryableFailure)))
    case _ =>
      ending == Some(Stopped(if config.structuredOutput && text.None? then InvalidStructuredOutput
                             else Completed(config.structuredOutput)))
  }

  lemma QuietIsTaken(config: Config, scripts: seq<TurnScript>, s: LoopState)
    requires Reached(config, scripts, s) && |s.requests| < |scripts| && Submits(config, scripts, |s.requests|)
    requires Quiet(config, scripts[|s.requests|])
    ensures var script := scripts[|s.requests|];
            var (next, ending) := Iterate(config, s, script);
            && Taken(config, scripts, next, |s.requests|) && |next.attempts| == next.iterations == |s.requests| + 1
            && QuietLeadsTo(config, next.finalText, script.submission.outcome.stop, ending)
  {
    ReceivedIsTold(config, scripts, s);
  }

  lemma QuietEnds(config: Config, scripts: seq<TurnScript>, s: LoopState)
    requires Reached(config, scripts, s) && |s.requests| < |scripts| && Submits(config, scripts, |s.requests|)
    requires Quiet(config, scripts[|s.requests|])
    ensures var (next, ending) := Iterate(config, s, scripts[|s.requests|]);
            PassesOn(config, scripts, s, next, ending)
  {
    var (next, ending) := Iterate(config, s, scripts[|s.requests|]);
    QuietIsTaken(config, scripts, s);
    if ending.Some? {
      QuietEndsAsDue(config, scripts, next, |s.requests|, ending.value);
    } else {
      GoingOnReaches(config, scripts, next, |s.requests|);
    }
  }

  lemma QuietReason(
    config: Config, scripts: seq<TurnScript>, text: Option<string>, n: nat, ending: Ending, reason: StopReason)
    requires n < |scripts| && WentOn(config, scripts, n) && Submits(config, scripts, n)
    requires Quiet(config, scripts[n]) && text == LastText(config, scripts, n + 1)
    requires QuietLeadsTo(config, text, scripts[n].submission.outcome.stop, Some(ending))
    ensures ending == Stopped(reason) <==> EndsFor(config, scripts, n + 1, reason)
  {
  }

  lemma QuietEndsAsDue(config: Config, scripts: seq<TurnScript>, end: LoopState, n: nat, ending: Ending)
    requires Taken(config, scripts, end, n) && Quiet(config, scripts[n])
    requires QuietLeadsTo(config, end.finalText, scripts[n].submission.outcome.stop, Some(ending))
    ensures EndsAsDue(config, scripts, end, ending)
  {
    forall reason ensures ending == Stopped(reason) <==> EndsFor(config, scripts, n + 1, reason) {
      QuietReason(config, scripts, end.finalText, n, ending, reason);
    }
  }

  lemma CallsAreTaken(config: Config, scripts: seq<TurnScript>, s: LoopState)
    requires Reached(config, scripts, s) && |s.requests| < |scripts| && Submits(config, scripts, |s.requests|)
    requires AnsweredWithCalls(config, scripts[|s.requests|])
    ensures var script := scripts[|s.requests|];
            var b := ServeCalls(config, FreshBatch(s.journal), CallsServed(config, script), script.calls);
            var (next, ending) := Iterate(config, s, script);
            && Taken(config, scripts, next, |s.requests|) && |next.attempts| == next.iterations == |s.requests| + 1
            && ending == if b.died then Some(Died) else if b.fatal then Some(Stopped(FatalToolRefusal)) else None
  {
    ReceivedIsTold(config, scripts, s);
  }

  lemma CallsEnd(config: Config, scripts: seq<TurnScript>, s: LoopState)
    requires Reached(config, scripts, s) && |s.requests| < |scripts| && Submits(config, scripts, |s.requests|)
    requires AnsweredWithCalls(config, scripts[|s.requests|])
    ensures var (next, ending) := Iterate(config, s, scripts[|s.requests|]);
            PassesOn(config, scripts, s, next, ending)
  {
    var script := scripts[|s.requests|];
    var (next, ending) := Iterate(config, s, script);
    CallsAreTaken(config, scripts, s);
    ClosedExactly(config, FreshBatch(s.journal), CallsServed(config, script), script.calls);
    if ending.Some? {
      ServingEndsAsDue(config, scripts, next, |s.requests|, ending.value);
    } else {
      GoingOnReaches(config, scripts, next, |s.requests|);
    }
  }

  lemma GoingOnReaches(config: Config, scripts: seq<TurnScript>, next: LoopState, n: nat)
    requires Taken(config, scripts, next, n) && |next.attempts| == next.iterations == n + 1
    requires GoesOn(config, scripts[n])
    ensures Reached(config, scripts, next)
  {
  }

  lemma ServingEndsAsDue(config: Config, scripts: seq<TurnScript>, end: LoopState, n: nat, ending: Ending)
    requires Taken(config, scripts, end, n) && AnsweredWithCalls(config, scripts[n])
    requires ending.Died?
             || (ending == Stopped(FatalToolRefusal)
                 && ClosedIn(config, CallsServed(config, scripts[n]), scripts[n].calls))
    ensures EndsAsDue(config, scripts, end, ending)
  {
  }

  lemma PassEnds(config: Config, scripts: seq<TurnScript>, s: LoopState)
    requires Reached(config, scripts, s) && |s.requests| < |scripts|
    ensures var (next, ending) := Iterate(config, s, scripts[|s.requests|]);
            PassesOn(config, scripts, s, next, ending)
  {
    if !Submits(config, scripts, |s.requests|) {
      UnsubmittedEnds(config, scripts, s);
    } else if Quiet(config, scripts[|s.requests|]) {
      QuietEnds(config, scripts, s);
    } else if AnsweredWithCalls(config, scripts[|s.requests|]) {
      CallsEnd(config, scripts, s);
    } else {
      UnansweredEnds(config, scripts, s);
    }
  }

  lemma RunOutEnds(config: Config, scripts: seq<TurnScript>, s: LoopState)
    requires Reached(config, scripts, s) && |s.requests| == |scripts|
    ensures EndsAsDue(config, scripts, s, Died)
  {
  }

  lemma {:induction false} LoopEnds(config: Config, scripts: seq<TurnScript>, s: LoopState)
    requires Reached(config, scripts, s)
    ensures var (end, ending) := Loop(config, s, scripts[|s.requests|..]);
            EndsAsDue(config, scripts, end, ending)
    decreases |scripts| - |s.requests|
  {
    var n := |s.requests|;
    if n == |scripts| {
      RunOutEnds(config, scripts, s);
    } else {
      assert scripts[n..][0] == scripts[n] && scripts[n..][1..] == scripts[n + 1..];
      var (next, ending) := Iterate(config, s, scripts[n]);
      PassEnds(config, scripts, s);
      if ending.None? {
        LoopEnds(config, scripts, next);
      }
    }
  }

  /** Every run ends as its turns say: for each reason exactly under its condition, going on
      after a pause and after calls, and having reported the tokens, the last text and each
      answered submission's usage and request id. */
  lemma EveryRunEndsAsDue(config: Config, journal: Journal, scripts: seq<TurnScript>)
    ensures var (end, ending) := Run(config, journal, scripts);
            EndsAsDue(config, scripts, end, ending)
  {
    assert scripts[0..] == scripts;
    LoopEnds(config, scripts, InitialState(journal));
  }
}
