/** The agent loop (raw_runtime.rs, lines 601-705 and 846-1206).

    The adapter, the authorizer and the executor are arbitrary: a run reads their
    answers from a script. A process may die between any two of its steps, and a
    script that runs out is a process that died there. */
module AgentLoop {
  import opened Wrappers
  import opened Transcript
  import opened ToolCalls
  import opened ToolJournal
  import opened StreamCollector

  // ------------------------------------------------------------------
  // What the environment answers
  // ------------------------------------------------------------------

  datatype Continuation = InformModelAndContinue | StopClosed

  datatype Decision = Authorized | Refused(reason: string, continuation: Continuation)

  datatype ExecutionResult = Finished(text: string, hash: string) | TimedOut | ExecutionError(detail: string)

  /** Where the process dies while serving one call, if it does. `InExecution`
      is any moment from the executor being invoked to its result being recorded. */
  datatype Death = Survives | BeforeCall | AfterIntent | InExecution | AfterResult

  datatype CallScript = CallScript(
    decision: Decision, execution: ExecutionResult, death: Death, storage: Storage)

  datatype Submission =
    | Answered(events: seq<StreamEvent>, outcome: SubmitOutcome)
    | Errored(error: AdapterError)
    | NoAnswer

  datatype TurnScript = TurnScript(cancelled: bool, submission: Submission, calls: seq<CallScript>)

  // ------------------------------------------------------------------
  // What a run reports
  // ------------------------------------------------------------------

  datatype Disposition =
    | ValidationRefused(refusal: ValidationRefusal)
    | AuthorizationRefused(reason: string, continuation: Continuation)
    | Executed(resultHash: string)
    | ExecutionFailed(detail: string)
    | ResumedFromJournal(prior: JournalResult)

  datatype CallRecord = CallRecord(callId: string, capabilityName: string, disposition: Disposition)

  datatype FailureTaxonomy = RetryableFailure | NonRetryableFailure | AmbiguousFailure

  datatype StopReason =
    | Completed(structuredOutput: bool)
    | IterationCeiling | TokenOrContextCeiling | Timeout | Cancelled
    | ProviderFailure(taxonomy: FailureTaxonomy)
    | FatalToolRefusal | InvalidStructuredOutput

  /** One submission that was billed or may have been. Attempt ids are minted in
      order, so an attempt is named by the number of the submission that made it. */
  datatype Attempt = Attempt(submission: nat, usage: Usage, ambiguous: bool, requestId: Option<string>)

  /** How a run of the loop ended: a stop reason, or the process dying. */
  datatype Ending = Stopped(reason: StopReason) | Died

  datatype Config = Config(
    parse: JsonParser, offered: set<CapabilityId>, maxIterations: nat, maxOutputTokens: Option<nat>,
    wallClock: bool, structuredOutput: bool, prefix: string, task: string)

  /** The interactions with the journal and the executor, in the order they happened. */
  datatype Event =
    | IntentRecorded(intent: Intent)
    | ExecutorInvoked(call: Intent)
    | ResultRecorded(callId: string, result: JournalResult)

  // ------------------------------------------------------------------
  // One tool call
  // ------------------------------------------------------------------

  /** What serving one call adds. `outcome` is absent when the process died. */
  datatype CallEffect = CallEffect(
    journal: Journal, trace: seq<Event>, fatal: bool, outcome: Option<(ToolResultPayload, Disposition)>)

  function ResultOf(execution: ExecutionResult): JournalResult {
    match execution
    case Finished(_, hash) => Succeeded(hash)
    case TimedOut => Failed("tool execution timed out")
    case ExecutionError(detail) => Failed(detail)
  }

  function Answer(callId: string, name: string, content: string, isError: bool, disposition: Disposition)
    : Option<(ToolResultPayload, Disposition)>
  {
    Some((ToolResultPayload(callId, name, content, isError), disposition))
  }

  /** Surfacing a result the journal already holds. */
  function Resume(callId: string, name: string, prior: JournalResult): Option<(ToolResultPayload, Disposition)> {
    match prior
    case Succeeded(_) => Answer(callId, name, "resumed: already executed", false, ResumedFromJournal(prior))
    case Failed(detail) =>
      Answer(callId, name, "resumed: previously failed (" + detail + ")", true, ResumedFromJournal(prior))
  }

  /** Recording the intent, executing, recording the result. A refused intent ends the
      process; a refused result goes unnoticed. */
  function Execute(journal: Journal, intent: Intent, script: CallScript): CallEffect {
    if !journal.TakesIntent(intent.callId, script.storage) then CallEffect(journal, [], false, None)
    else
      var intended := journal.WithIntent(intent);
      var invoked := [IntentRecorded(intent), ExecutorInvoked(intent)];
      var result := ResultOf(script.execution);
      var stored := intended.TakesResult(intent.callId, script.storage);
      var recorded := if stored then intended.WithResult(intent.callId, result) else intended;
      var trace := if stored then invoked + [ResultRecorded(intent.callId, result)] else invoked;
      match script.death
      case AfterIntent => CallEffect(intended, [IntentRecorded(intent)], false, None)
      case InExecution => CallEffect(intended, invoked, false, None)
      case AfterResult => CallEffect(recorded, trace, false, None)
      case _ =>
        var name := Name(intent.capability);
        CallEffect(recorded, trace, false,
          if script.execution.Finished?
          then Answer(intent.callId, name, script.execution.text, false, Executed(script.execution.hash))
          else Answer(intent.callId, name, result.detail, true, ExecutionFailed(result.detail)))
  }

  function IntentFor(call: ValidatedCall): Intent {
    Intent(call.callId, call.capability, Canonical(call.capability).effect)
  }

  function ServeCall(config: Config, journal: Journal, call: ToolCallRequest, script: CallScript): CallEffect {
    if script.death == BeforeCall then CallEffect(journal, [], false, None)
    else
      match Validate(call, config.offered)
      case Failure(refusal) =>
        CallEffect(journal, [], false,
          Answer(call.callId, call.capabilityName, "refused: invalid tool call", true, ValidationRefused(refusal)))
      case Success(validated) =>
        var name := Name(validated.capability);
        match script.decision
        case Refused(reason, continuation) =>
          CallEffect(journal, [], continuation == StopClosed,
            Answer(call.callId, name, "refused: not authorized", true, AuthorizationRefused(reason, continuation)))
        case Authorized =>
          var prior := journal.Prior(call.callId, script.storage);
          if prior.Some? then CallEffect(journal, [], false, Resume(call.callId, name, prior.value))
          else Execute(journal, IntentFor(validated), script)
  }

  /** Serves one requested call. The statements are those of the source, with a
      possible death between each two of them. */
  method ProcessToolCall(config: Config, journal: JournalStore, rawCall: ToolCallRequest, script: CallScript)
    returns (fatal: bool, outcome: Option<(ToolResultPayload, Disposition)>, trace: seq<Event>)
    modifies journal
    ensures CallEffect(journal.Value(), trace, fatal, outcome)
            == ServeCall(config, old(journal.Value()), rawCall, script)
  {
    fatal, outcome, trace := false, None, [];
    if script.death == BeforeCall {
      return;
    }
    var validation := Validate(rawCall, config.offered);
    if validation.Failure? {
      outcome := Answer(rawCall.callId, rawCall.capabilityName, "refused: invalid tool call", true,
                        ValidationRefused(validation.error));
      return;
    }
    var validated := validation.value;
    var name := Name(validated.capability);
    match script.decision {
      case Refused(reason, continuation) =>
        fatal := continuation == StopClosed;
        outcome := Answer(validated.callId, name, "refused: not authorized", true,
                          AuthorizationRefused(reason, continuation));
      case Authorized =>
        var prior := journal.ResultFor(validated.callId, script.storage);
        if prior.Some? {
          outcome := Resume(validated.callId, name, prior.value);
          return;
        }
        var intent := IntentFor(validated);
        var intended := journal.RecordIntent(intent, script.storage);
        if !intended {
          return;
        }
        trace := trace + [IntentRecorded(intent)];
        if script.death == AfterIntent {
          return;
        }
        trace := trace + [ExecutorInvoked(intent)];
        if script.death == InExecution {
          return;
        }
        var stored;
        match script.execution {
          case Finished(text, hash) =>
            stored := journal.RecordResult(validated.callId, Succeeded(hash), script.storage);
            outcome := Answer(validated.callId, name, text, false, Executed(hash));
          case TimedOut =>
            stored := journal.RecordResult(validated.callId, Failed("tool execution timed out"), script.storage);
            outcome := Answer(validated.callId, name, "tool execution timed out", true,
                              ExecutionFailed("tool execution timed out"));
          case ExecutionError(detail) =>
            stored := journal.RecordResult(validated.callId, Failed(detail), script.storage);
            outcome := Answer(validated.callId, name, detail, true, ExecutionFailed(detail));
        }
        if stored {
          trace := trace + [ResultRecorded(validated.callId, ResultOf(script.execution))];
        }
        if script.death == AfterResult {
          outcome := None;
        }
    }
  }

  // ------------------------------------------------------------------
  // The calls of one turn
  // ------------------------------------------------------------------

  /** What serving a turn's calls adds. A `StopClosed` refusal is remembered in
      `fatal`; the calls after it are still served. */
  datatype BatchEffect = BatchEffect(
    journal: Journal, trace: seq<Event>, fatal: bool, results: seq<ToolResultPayload>, records: seq<CallRecord>,
    died: bool)

  function ServeCalls(
    config: Config, b: BatchEffect, calls: seq<ToolCallRequest>, scripts: seq<CallScript>): BatchEffect
    decreases |calls|
  {
    if b.died || calls == [] then b
    else if scripts == [] then b.(died := true)
    else ServeCalls(config, ServeOne(config, b, calls[0], scripts[0]), calls[1..], scripts[1..])
  }

  function ServeOne(config: Config, b: BatchEffect, call: ToolCallRequest, script: CallScript): BatchEffect {
    AddEffect(b, call, ServeCall(config, b.journal, call, script))
  }

  function AddEffect(b: BatchEffect, call: ToolCallRequest, e: CallEffect): BatchEffect {
    if e.outcome.None? then b.(journal := e.journal, trace := b.trace + e.trace, died := true)
    else
      BatchEffect(e.journal, b.trace + e.trace, b.fatal || e.fatal, b.results + [e.outcome.value.0],
                  b.records + [CallRecord(call.callId, call.capabilityName, e.outcome.value.1)], false)
  }

  function FreshBatch(journal: Journal): BatchEffect {
    BatchEffect(journal, [], false, [], [], false)
  }

  method ProcessCalls(
    config: Config, journal: JournalStore, calls: seq<ToolCallRequest>, scripts: seq<CallScript>)
    returns (fatal: bool, results: seq<ToolResultPayload>, records: seq<CallRecord>, died: bool, trace: seq<Event>)
    modifies journal
    ensures BatchEffect(journal.Value(), trace, fatal, results, records, died)
            == ServeCalls(config, FreshBatch(old(journal.Value())), calls, scripts)
  {
    fatal, results, records, died, trace := false, [], [], false, [];
    for i := 0 to |calls|
      invariant i <= |scripts| && !died
      invariant ServeCalls(config, FreshBatch(old(journal.Value())), calls, scripts)
                == ServeCalls(config, BatchEffect(journal.Value(), trace, fatal, results, records, false),
                              calls[i..], scripts[i..])
    {
      ghost var before := BatchEffect(journal.Value(), trace, fatal, results, records, false);
      if i == |scripts| {
        died := true;
        return;
      }
      var fatalRefusal, outcome, callTrace := ProcessToolCall(config, journal, calls[i], scripts[i]);
      trace := trace + callTrace;
      if outcome.None? {
        died := true;
        assert ServeOne(config, before, calls[i], scripts[i])
               == BatchEffect(journal.Value(), trace, fatal, results, records, true);
        return;
      }
      fatal := fatal || fatalRefusal;
      results := results + [outcome.value.0];
      records := records + [CallRecord(calls[i].callId, calls[i].capabilityName, outcome.value.1)];
      assert ServeOne(config, before, calls[i], scripts[i])
             == BatchEffect(journal.Value(), trace, fatal, results, records, false);
      assert calls[i..][1..] == calls[i + 1..] && scripts[i..][1..] == scripts[i + 1..];
    }
  }

  // ------------------------------------------------------------------
  // The loop
  // ------------------------------------------------------------------

  /** The loop's variables. `requests` are the message lists submitted so far. */
  datatype LoopState = LoopState(
    journal: Journal, history: seq<Message>, attempts: seq<Attempt>, records: seq<CallRecord>,
    finalText: Option<string>, iterations: nat, outputTokens: nat, requests: seq<seq<Message>>, trace: seq<Event>)

  function InitialState(journal: Journal): LoopState {
    LoopState(journal, [], [], [], None, 0, 0, [], [])
  }

  /** Stable bytes first, then the task, then the conversation so far. */
  function Compose(config: Config, history: seq<Message>): seq<Message> {
    [Message(System, Text(config.prefix)), Message(User, Text(config.task))] + history
  }

  function PayloadOf(call: ToolCallRequest): ToolCallPayload {
    ToolCallPayload(call.callId, call.capabilityName, call.arguments.text)
  }

  function PayloadsOf(calls: seq<ToolCallRequest>): (payloads: seq<ToolCallPayload>)
    ensures |payloads| == |calls| && forall i :: 0 <= i < |calls| ==> payloads[i] == PayloadOf(calls[i])
  {
    seq(|calls|, i requires 0 <= i < |calls| => PayloadOf(calls[i]))
  }

  /** The verdict on an answered turn that issued no tool call; none means resubmit. */
  function QuietEnding(config: Config, finalText: Option<string>, stop: AdapterStop): Option<StopReason> {
    match stop
    case EndTurn | ContentFilter | StopSequence =>
      if config.structuredOutput && finalText.None? then Some(InvalidStructuredOutput)
      else Some(Completed(config.structuredOutput))
    case MaxTokens => Some(TokenOrContextCeiling)
    case ToolUse => Some(InvalidStructuredOutput)
    case PauseTurn => None
    case Refusal => Some(ProviderFailure(NonRetryableFailure))
  }

  function OutputTokens(usage: Usage): nat {
    if usage.outputTokens.Some? then usage.outputTokens.value else 0
  }

  /** Whether the run stops before submitting anything this iteration. `iterations`
      is the value the loop leaves behind when it does. */
  function CeilingStop(config: Config, s: LoopState): Option<(LoopState, StopReason)> {
    if s.iterations + 1 > config.maxIterations then Some((s, IterationCeiling))
    else if config.maxOutputTokens.Some? && s.outputTokens >= config.maxOutputTokens.value
    then Some((s.(iterations := s.iterations + 1), TokenOrContextCeiling))
    else None
  }

  function Submitted(config: Config, s: LoopState): LoopState {
    s.(iterations := s.iterations + 1, requests := s.requests + [Compose(config, s.history)])
  }

  function InDoubtAttempt(s: LoopState): LoopState {
    s.(attempts := s.attempts + [Attempt(|s.requests|, Usage(None), true, None)])
  }

  /** Everything an answered submission changes before its calls are served. */
  function Received(s: LoopState, collected: Collected, outcome: SubmitOutcome): LoopState {
    var billed := s.(outputTokens := s.outputTokens + OutputTokens(outcome.usage),
                     attempts := s.attempts + [Attempt(|s.requests|, outcome.usage, false, outcome.requestId)]);
    if collected.text.None? then billed
    else billed.(finalText := collected.text,
                 history := s.history + [Message(Assistant, Text(collected.text.value))])
  }

  /** The state after a turn's calls: the calls, then their results. */
  function Served(s: LoopState, calls: seq<ToolCallRequest>, b: BatchEffect): LoopState {
    s.(journal := b.journal, trace := s.trace + b.trace, records := s.records + b.records,
       history := s.history + [Message(Assistant, ToolCalls(PayloadsOf(calls)))] + ResultMessages(b.results))
  }

  /** One pass of the loop. No ending means iterate. */
  function Iterate(config: Config, s: LoopState, script: TurnScript): (LoopState, Option<Ending>) {
    if script.cancelled then (s, Some(Stopped(Cancelled)))
    else if CeilingStop(config, s).Some?
    then (CeilingStop(config, s).value.0, Some(Stopped(CeilingStop(config, s).value.1)))
    else
      var sent := Submitted(config, s);
      match script.submission
      case NoAnswer =>
        if config.wallClock then (InDoubtAttempt(sent), Some(Stopped(Timeout))) else (sent, Some(Died))
      case Errored(Ambiguous) => (InDoubtAttempt(sent), Some(Stopped(ProviderFailure(AmbiguousFailure))))
      case Errored(Retryable) => (sent, Some(Stopped(ProviderFailure(RetryableFailure))))
      case Errored(NonRetryable) => (sent, Some(Stopped(ProviderFailure(NonRetryableFailure))))
      case Answered(events, outcome) =>
        var collected := Collect(config.parse, NOTHING_COLLECTED, events);
        var received := Received(sent, collected, outcome);
        if collected.completed == [] then
          var verdict := QuietEnding(config, received.finalText, outcome.stop);
          (received, if verdict.Some? then Some(Stopped(verdict.value)) else None)
        else
          var b := ServeCalls(config, FreshBatch(received.journal), collected.completed, script.calls);
          (Served(received, collected.completed, b),
           if b.died then Some(Died) else if b.fatal then Some(Stopped(FatalToolRefusal)) else None)
  }

  /** The calls a pass of the loop serves, if it gets that far. */
  function CallsServed(config: Config, script: TurnScript): seq<ToolCallRequest> {
    if script.submission.Answered?
    then Collect(config.parse, NOTHING_COLLECTED, script.submission.events).completed else []
  }

  function Loop(config: Config, s: LoopState, scripts: seq<TurnScript>): (LoopState, Ending)
    decreases |scripts|
  {
    if scripts == [] then (s, Died)
    else
      var (next, ending) := Iterate(config, s, scripts[0]);
      if ending.Some? then (next, ending.value) else Loop(config, next, scripts[1..])
  }

  /** A run from a journal: the history always starts empty. */
  function Run(config: Config, journal: Journal, scripts: seq<TurnScript>): (LoopState, Ending) {
    Loop(config, InitialState(journal), scripts)
  }

  /** One pass of the loop over its variables and the journal object. */
  method RunTurn(config: Config, journal: JournalStore, before: LoopState, script: TurnScript)
    returns (s: LoopState, ending: Option<Ending>)
    requires before.journal == journal.Value()
    modifies journal
    ensures (s, ending) == Iterate(config, before, script)
    ensures s.journal == journal.Value()
  {
    s, ending := before, None;
    if script.cancelled {
      return s, Some(Stopped(Cancelled));
    }
    s := s.(iterations := s.iterations + 1);
    if s.iterations > config.maxIterations {
      s := s.(iterations := s.iterations - 1);
      return s, Some(Stopped(IterationCeiling));
    }
    if config.maxOutputTokens.Some? && s.outputTokens >= config.maxOutputTokens.value {
      return s, Some(Stopped(TokenOrContextCeiling));
    }
    s := s.(requests := s.requests + [Compose(config, s.history)]);
    var attemptId := |s.requests|;
    match script.submission {
      case NoAnswer =>
        if !config.wallClock {
          return s, Some(Died);
        }
        s := s.(attempts := s.attempts + [Attempt(attemptId, Usage(None), true, None)]);
        return s, Some(Stopped(Timeout));
      case Errored(error) =>
        match error {
          case Ambiguous =>
            s := s.(attempts := s.attempts + [Attempt(attemptId, Usage(None), true, None)]);
            return s, Some(Stopped(ProviderFailure(AmbiguousFailure)));
          case Retryable => return s, Some(Stopped(ProviderFailure(RetryableFailure)));
          case NonRetryable => return s, Some(Stopped(ProviderFailure(NonRetryableFailure)));
        }
      case Answered(events, outcome) =>
        var collector := new TurnCollector();
        collector.Observe(config.parse, events);
        s := ReceiveTurn(s, collector.text, outcome, collector.Value());
        if collector.completedCalls == [] {
          var verdict := QuietEnding(config, s.finalText, outcome.stop);
          return s, if verdict.Some? then Some(Stopped(verdict.value)) else None;
        }
        s, ending := ServeTurn(config, journal, s, collector.completedCalls, script.calls);
    }
  }

  /** The answer's tokens, attempt and text join the loop's variables. */
  method ReceiveTurn(sent: LoopState, text: Option<string>, outcome: SubmitOutcome, ghost collected: Collected)
    returns (s: LoopState)
    requires collected.text == text
    ensures s == Received(sent, collected, outcome)
  {
    s := sent.(outputTokens := sent.outputTokens + OutputTokens(outcome.usage));
    s := s.(attempts := s.attempts + [Attempt(|s.requests|, outcome.usage, false, outcome.requestId)]);
    if text.Some? {
      s := s.(finalText := text);
      s := s.(history := s.history + [Message(Assistant, Text(text.value))]);
    }
  }

  /** The calls of a turn and their results join the history. */
  method ServeTurn(
    config: Config, journal: JournalStore, received: LoopState, calls: seq<ToolCallRequest>,
    scripts: seq<CallScript>)
    returns (s: LoopState, ending: Option<Ending>)
    requires received.journal == journal.Value()
    modifies journal
    ensures s.journal == journal.Value()
    ensures var b := ServeCalls(config, FreshBatch(received.journal), calls, scripts);
            && s == Served(received, calls, b)
            && ending == if b.died then Some(Died) else if b.fatal then Some(Stopped(FatalToolRefusal)) else None
  {
    s := received.(history := received.history + [Message(Assistant, ToolCalls(PayloadsOf(calls)))]);
    var fatal, results, records, died, trace := ProcessCalls(config, journal, calls, scripts);
    s := s.(history := s.history + ResultMessages(results), records := s.records + records);
    s := s.(journal := journal.Value(), trace := s.trace + trace);
    ending := if died then Some(Died) else if fatal then Some(Stopped(FatalToolRefusal)) else None;
  }

  /** The loop as the source runs it. */
  method RunLoop(config: Config, journal: JournalStore, scripts: seq<TurnScript>)
    returns (s: LoopState, ending: Ending)
    modifies journal
    ensures (s, ending) == Run(config, old(journal.Value()), scripts)
    ensures s.journal == journal.Value()
  {
    s := InitialState(journal.Value());
    for turn := 0 to |scripts|
      invariant s.journal == journal.Value()
      invariant Run(config, old(journal.Value()), scripts) == Loop(config, s, scripts[turn..])
    {
      assert scripts[turn..][0] == scripts[turn] && scripts[turn..][1..] == scripts[turn + 1..];
      var end;
      s, end := RunTurn(config, journal, s, scripts[turn]);
      if end.Some? {
        return s, end.value;
      }
    }
    return s, Died;
  }
}
