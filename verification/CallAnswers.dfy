/** What a call is answered with, recorded as and remembered under
    (crates/familiar-ai-agent/src/raw_runtime.rs, lines 1077-1206). */
module CallAnswers {
  import opened Wrappers
  import opened Transcript
  import opened ToolCalls
  import opened ToolJournal
  import opened StreamCollector
  import opened AgentLoop
  import opened LoopAccounting

  // ------------------------------------------------------------------
  // One call
  // ------------------------------------------------------------------

  /** The executor failed with this detail. */
  predicate FailsWith(execution: ExecutionResult, detail: string) {
    (execution.TimedOut? && detail == "tool execution timed out") || execution == ExecutionError(detail)
  }

  predicate Succeeds(disposition: Disposition) {
    disposition.Executed? || (disposition.ResumedFromJournal? && disposition.prior.Succeeded?)
  }

  /** The call was refused exactly when it is invalid or was not authorized, as recorded. */
  predicate RefusedAsDue(config: Config, call: ToolCallRequest, script: CallScript, disposition: Disposition) {
    var validation := Validate(call, config.offered);
    && (disposition.ValidationRefused? <==> validation.Failure?)
    && (disposition.ValidationRefused? ==> disposition.refusal == validation.error)
    && (disposition.AuthorizationRefused? <==> validation.Success? && script.decision.Refused?)
    && (disposition.AuthorizationRefused? ==>
          script.decision == Refused(disposition.reason, disposition.continuation))
  }

  /** What the model reads is what the executor returned, or the earlier result of the call. */
  predicate TextAsDue(call: ToolCallRequest, script: CallScript, content: string, disposition: Disposition) {
    match disposition
    case Executed(hash) => script.execution == ExecutionResult.Finished(content, hash)
    case ExecutionFailed(detail) => content == detail && FailsWith(script.execution, detail)
    case ResumedFromJournal(Succeeded(_)) => content == "resumed: already executed"
    case ResumedFromJournal(Failed(detail)) => content == "resumed: previously failed (" + detail + ")"
    case ValidationRefused(_) => content == "refused: invalid tool call"
    case AuthorizationRefused(_, _) => content == "refused: not authorized"
  }

  /** What the journal holds of the call: the recorded result, if the journal took it, and the
      earlier one, if the journal could be read. */
  predicate KeptAsDue(journal: Journal, callId: string, storage: Storage, disposition: Disposition) {
    match disposition
    case Executed(hash) =>
      !journal.durable || storage == Works ==> journal.HasResult(callId) && journal.results[callId] == Succeeded(hash)
    case ExecutionFailed(detail) =>
      !journal.durable || storage == Works ==>
        journal.HasResult(callId) && journal.results[callId] == JournalResult.Failed(detail)
    case ResumedFromJournal(prior) =>
      || (journal.HasResult(callId) && journal.results[callId] == prior)
      || (journal.durable && storage.Unopened? && prior == JournalResult.Failed(storage.detail))
    case _ => true
  }

  /** One result and one record answer one call. */
  predicate AnsweredAs(
    config: Config, journal: Journal, call: ToolCallRequest, script: CallScript, result: ToolResultPayload,
    record: CallRecord)
  {
    && result.callId == call.callId == record.callId
    && result.capabilityName == call.capabilityName == record.capabilityName
    && (result.isError <==> !Succeeds(record.disposition))
    && RefusedAsDue(config, call, script, record.disposition)
    && TextAsDue(call, script, result.content, record.disposition)
    && KeptAsDue(journal, call.callId, script.storage, record.disposition)
  }

  lemma ExecutionIsAnswered(journal: Journal, intent: Intent, script: CallScript)
    requires journal.Prior(intent.callId, script.storage).None? && Execute(journal, intent, script).outcome.Some?
    ensures var e := Execute(journal, intent, script);
            var (result, disposition) := e.outcome.value;
            && result.callId == intent.callId && result.capabilityName == Name(intent.capability)
            && (disposition.Executed? || disposition.ExecutionFailed?)
            && (result.isError <==> !Succeeds(disposition))
            && (disposition.Executed? ==>
                  script.execution == ExecutionResult.Finished(result.content, disposition.resultHash))
            && (disposition.ExecutionFailed? ==>
                  result.content == disposition.detail && FailsWith(script.execution, disposition.detail))
            && KeptAsDue(e.journal, intent.callId, script.storage, disposition)
  {
  }

  lemma ResumedIsAnswered(journal: Journal, callId: string, storage: Storage)
    requires journal.Prior(callId, storage).Some?
    ensures KeptAsDue(journal, callId, storage, ResumedFromJournal(journal.Prior(callId, storage).value))
  {
  }

  lemma RefusedIsAnswered(config: Config, journal: Journal, call: ToolCallRequest, script: CallScript)
    requires ServeCall(config, journal, call, script).outcome.Some?
    requires Validate(call, config.offered).Success? ==> script.decision.Refused?
    ensures var e := ServeCall(config, journal, call, script);
            AnsweredAs(config, e.journal, call, script, e.outcome.value.0,
                       CallRecord(call.callId, call.capabilityName, e.outcome.value.1))
  {
    NamesParseBack(call.capabilityName);
    var id := ParseName(call.capabilityName);
    if id.Some? {
      EffectsOfCapabilities(id.value);
    }
  }

  lemma CallIsAnswered(config: Config, journal: Journal, call: ToolCallRequest, script: CallScript)
    requires ServeCall(config, journal, call, script).outcome.Some?
    ensures var e := ServeCall(config, journal, call, script);
            AnsweredAs(config, e.journal, call, script, e.outcome.value.0,
                       CallRecord(call.callId, call.capabilityName, e.outcome.value.1))
  {
    var validation := Validate(call, config.offered);
    if validation.Success? && script.decision.Authorized? {
      AuthorizedIsAnswered(config, journal, call, script, validation.value);
    } else {
      RefusedIsAnswered(config, journal, call, script);
    }
  }

  lemma AuthorizedIsServed(
    config: Config, journal: Journal, call: ToolCallRequest, script: CallScript, validated: ValidatedCall)
    requires Validate(call, config.offered) == Success(validated) && script.decision.Authorized?
    requires script.death != BeforeCall
    ensures validated.callId == call.callId && Name(validated.capability) == call.capabilityName
    ensures var prior := journal.Prior(call.callId, script.storage);
            ServeCall(config, journal, call, script)
            == if prior.Some? then CallEffect(journal, [], false, Resume(call.callId, call.capabilityName, prior.value))
               else Execute(journal, IntentFor(validated), script)
  {
    NamesParseBack(call.capabilityName);
    EffectsOfCapabilities(ParseName(call.capabilityName).value);
  }

  lemma AuthorizedIsAnswered(
    config: Config, journal: Journal, call: ToolCallRequest, script: CallScript, validated: ValidatedCall)
    requires Validate(call, config.offered) == Success(validated) && script.decision.Authorized?
    requires ServeCall(config, journal, call, script).outcome.Some?
    ensures var e := ServeCall(config, journal, call, script);
            AnsweredAs(config, e.journal, call, script, e.outcome.value.0,
                       CallRecord(call.callId, call.capabilityName, e.outcome.value.1))
  {
    var prior, e := journal.Prior(call.callId, script.storage), ServeCall(config, journal, call, script);
    AuthorizedIsServed(config, journal, call, script, validated);
    if prior.None? {
      ExecutionIsAnswered(journal, IntentFor(validated), script);
    } else {
      ResumedIsAnswered(journal, call.callId, script.storage);
    }
    Restated(config, e.journal, call, script, e.outcome.value.0, e.outcome.value.1);
  }

  /** What an authorized call must be answered with, put together. */
  lemma Restated(
    config: Config, journal: Journal, call: ToolCallRequest, script: CallScript, result: ToolResultPayload,
    disposition: Disposition)
    requires Validate(call, config.offered).Success? && script.decision.Authorized?
    requires disposition.Executed? || disposition.ExecutionFailed? || disposition.ResumedFromJournal?
    requires result.callId == call.callId && result.capabilityName == call.capabilityName
    requires result.isError <==> !Succeeds(disposition)
    requires TextAsDue(call, script, result.content, disposition)
    requires KeptAsDue(journal, call.callId, script.storage, disposition)
    ensures AnsweredAs(config, journal, call, script, result, CallRecord(call.callId, call.capabilityName, disposition))
  {
  }

  // ------------------------------------------------------------------
  // The calls of a turn
  // ------------------------------------------------------------------

  /** The second journal is of the same kind and still holds every result of the first. */
  predicate Keeps(before: Journal, after: Journal) {
    before.durable == after.durable
    && forall callId | callId in before.results ::
         callId in after.results && after.results[callId] == before.results[callId]
  }

  /** Serving a call never replaces a result. */
  lemma ServingKeepsResults(config: Config, journal: Journal, call: ToolCallRequest, script: CallScript)
    ensures Keeps(journal, ServeCall(config, journal, call, script).journal)
  {
  }

  lemma LaterJournalAnswers(
    config: Config, journal: Journal, later: Journal, call: ToolCallRequest, script: CallScript,
    result: ToolResultPayload, record: CallRecord)
    requires AnsweredAs(config, journal, call, script, result, record) && Keeps(journal, later)
    ensures AnsweredAs(config, later, call, script, result, record)
  {
  }

  /** The calls and their scripts, as far as both go. */
  function Paired(calls: seq<ToolCallRequest>, scripts: seq<CallScript>): (pairs: seq<(ToolCallRequest, CallScript)>)
    ensures |pairs| == if |calls| <= |scripts| then |calls| else |scripts|
    ensures forall i :: 0 <= i < |pairs| ==> pairs[i] == (calls[i], scripts[i])
  {
    seq(if |calls| <= |scripts| then |calls| else |scripts|,
        i requires 0 <= i < |calls| && i < |scripts| => (calls[i], scripts[i]))
  }

  /** Results and records answer these calls one for one, as far as they go. */
  ghost predicate AllAnswered(
    config: Config, journal: Journal, pairs: seq<(ToolCallRequest, CallScript)>, results: seq<ToolResultPayload>,
    records: seq<CallRecord>)
  {
    && |results| == |records| <= |pairs|
    && forall k :: 0 <= k < |results| ==>
         AnsweredAs(config, journal, pairs[k].0, pairs[k].1, results[k], records[k])
  }

  lemma OneCallIsAnswered(config: Config, b: BatchEffect, call: ToolCallRequest, script: CallScript)
    ensures var next := ServeOne(config, b, call, script);
            && Keeps(b.journal, next.journal)
            && (next.died ==> next.results == b.results && next.records == b.records)
            && (!next.died ==>
                  && |next.results| == |b.results| + 1 && b.results <= next.results
                  && |next.records| == |b.records| + 1 && b.records <= next.records
                  && AnsweredAs(config, next.journal, call, script, next.results[|b.results|],
                                next.records[|b.records|]))
  {
    ServingKeepsResults(config, b.journal, call, script);
    if ServeCall(config, b.journal, call, script).outcome.Some? {
      CallIsAnswered(config, b.journal, call, script);
    }
  }

  /** What serving these calls added to a batch answers them. */
  ghost predicate Added(
    config: Config, b: BatchEffect, end: BatchEffect, calls: seq<ToolCallRequest>, scripts: seq<CallScript>)
  {
    && b.results <= end.results && b.records <= end.records && Keeps(b.journal, end.journal)
    && AllAnswered(config, end.journal, Paired(calls, scripts), end.results[|b.results|..], end.records[|b.records|..])
  }

  lemma {:induction false} ServedCallsAreAnswered(
    config: Config, b: BatchEffect, calls: seq<ToolCallRequest>, scripts: seq<CallScript>)
    ensures Added(config, b, ServeCalls(config, b, calls, scripts), calls, scripts)
    decreases |calls|
  {
    if !b.died && calls != [] && scripts != [] {
      var next := ServeOne(config, b, calls[0], scripts[0]);
      OneCallIsAnswered(config, b, calls[0], scripts[0]);
      if next.died {
        assert ServeCalls(config, next, calls[1..], scripts[1..]) == next;
      } else {
        ServedCallsAreAnswered(config, next, calls[1..], scripts[1..]);
        RestIsAnswered(config, b, next, ServeCalls(config, next, calls[1..], scripts[1..]), calls, scripts);
      }
    }
  }

  lemma RestIsAnswered(
    config: Config, b: BatchEffect, next: BatchEffect, end: BatchEffect, calls: seq<ToolCallRequest>,
    scripts: seq<CallScript>)
    requires calls != [] && scripts != [] && Keeps(b.journal, next.journal)
    requires |next.results| == |b.results| + 1 && b.results <= next.results
    requires |next.records| == |b.records| + 1 && b.records <= next.records
    requires AnsweredAs(config, next.journal, calls[0], scripts[0], next.results[|b.results|],
                        next.records[|b.records|])
    requires Added(config, next, end, calls[1..], scripts[1..])
    ensures Added(config, b, end, calls, scripts)
  {
    var results, records := end.results[|b.results|..], end.records[|b.records|..];
    LaterJournalAnswers(config, next.journal, end.journal, calls[0], scripts[0], results[0], records[0]);
    assert results[1..] == end.results[|next.results|..] && records[1..] == end.records[|next.records|..];
    OneMoreAnswered(config, end.journal, calls, scripts, results, records);
  }

  lemma OneMoreAnswered(
    config: Config, journal: Journal, calls: seq<ToolCallRequest>, scripts: seq<CallScript>,
    results: seq<ToolResultPayload>, records: seq<CallRecord>)
    requires calls != [] && scripts != [] && results != [] && records != []
    requires AnsweredAs(config, journal, calls[0], scripts[0], results[0], records[0])
    requires AllAnswered(config, journal, Paired(calls[1..], scripts[1..]), results[1..], records[1..])
    ensures AllAnswered(config, journal, Paired(calls, scripts), results, records)
  {
    forall k | 0 <= k < |results|
      ensures AnsweredAs(config, journal, calls[k], scripts[k], results[k], records[k])
    {
      if k > 0 {
        assert results[1..][k - 1] == results[k] && records[1..][k - 1] == records[k];
        assert Paired(calls[1..], scripts[1..])[k - 1] == (calls[k], scripts[k]);
      }
    }
  }

  // ------------------------------------------------------------------
  // Every run
  // ------------------------------------------------------------------

  /** The calls streamed in these turns, turn by turn, each with what the environment answers. */
  function Requested(config: Config, scripts: seq<TurnScript>): seq<(ToolCallRequest, CallScript)> {
    if scripts == [] then []
    else Paired(CallsServed(config, scripts[0]), scripts[0].calls) + Requested(config, scripts[1..])
  }

  /** The tool results and records a run added answer these calls. */
  ghost predicate Answers(
    config: Config, s: LoopState, end: LoopState, pairs: seq<(ToolCallRequest, CallScript)>)
  {
    && ResultsIn(s.history) <= ResultsIn(end.history) && s.records <= end.records && Keeps(s.journal, end.journal)
    && AllAnswered(config, end.journal, pairs, ResultsIn(end.history)[|ResultsIn(s.history)|..],
                   end.records[|s.records|..])
  }

  lemma NothingNewAnswers(
    config: Config, s: LoopState, end: LoopState, pairs: seq<(ToolCallRequest, CallScript)>)
    requires ResultsIn(end.history) == ResultsIn(s.history) && end.records == s.records && end.journal == s.journal
    ensures Answers(config, s, end, pairs)
  {
  }

  lemma ReceivingAddsNoResult(s: LoopState, collected: Collected, outcome: SubmitOutcome)
    ensures ResultsIn(Received(s, collected, outcome).history) == ResultsIn(s.history)
  {
    if collected.text.Some? {
      var spoken := [Message(Assistant, Text(collected.text.value))];
      ResultsInAppend(s.history, spoken);
      assert ResultsIn(spoken) == [];
    }
  }

  lemma ServedTurnAnswers(config: Config, s: LoopState, calls: seq<ToolCallRequest>, scripts: seq<CallScript>)
    ensures var b := ServeCalls(config, FreshBatch(s.journal), calls, scripts);
            && Answers(config, s, Served(s, calls, b), Paired(calls, scripts))
            && (!b.died ==> |b.records| == |Paired(calls, scripts)|)
  {
    var batch := FreshBatch(s.journal);
    var b := ServeCalls(config, batch, calls, scripts);
    ServedCallsAreAnswered(config, batch, calls, scripts);
    EveryCallIsAnswered(config, batch, calls, scripts);
    ServedResults(s, calls, b);
    assert b.results[0..] == b.results && b.records[0..] == b.records;
    var end := Served(s, calls, b);
    assert ResultsIn(end.history)[|ResultsIn(s.history)|..] == b.results && end.records[|s.records|..] == b.records;
  }

  lemma IterateAnswers(config: Config, s: LoopState, script: TurnScript)
    ensures var (next, ending) := Iterate(config, s, script);
            var pairs := Paired(CallsServed(config, script), script.calls);
            && Answers(config, s, next, pairs)
            && (ending.None? ==> |next.records| == |s.records| + |pairs|)
  {
    var (next, ending) := Iterate(config, s, script);
    var calls := CallsServed(config, script);
    if script.submission.Answered? && !script.cancelled && CeilingStop(config, s).None? {
      var collected := Collect(config.parse, NOTHING_COLLECTED, script.submission.events);
      var received := Received(Submitted(config, s), collected, script.submission.outcome);
      ReceivingAddsNoResult(Submitted(config, s), collected, script.submission.outcome);
      if calls == [] {
        NothingNewAnswers(config, s, next, Paired(calls, script.calls));
      } else {
        ServedTurnAnswers(config, received, calls, script.calls);
      }
    } else {
      NothingNewAnswers(config, s, next, Paired(calls, script.calls));
    }
  }

  lemma LaterTurnsAnswer(
    config: Config, s: LoopState, next: LoopState, end: LoopState, pairs: seq<(ToolCallRequest, CallScript)>,
    rest: seq<(ToolCallRequest, CallScript)>)
    requires |ResultsIn(s.history)| == |s.records|
    requires Answers(config, s, next, pairs) && |next.records| == |s.records| + |pairs|
    requires Answers(config, next, end, rest)
    ensures Answers(config, s, end, pairs + rest)
  {
    var before, between, after := ResultsIn(s.history), ResultsIn(next.history), ResultsIn(end.history);
    Concatenated(config, next.journal, end.journal, pairs, rest, before, between, after, s.records, next.records,
                 end.records);
  }

  lemma Concatenated(
    config: Config, journal: Journal, later: Journal, pairs: seq<(ToolCallRequest, CallScript)>,
    rest: seq<(ToolCallRequest, CallScript)>, before: seq<ToolResultPayload>, between: seq<ToolResultPayload>,
    after: seq<ToolResultPayload>, first: seq<CallRecord>, second: seq<CallRecord>, third: seq<CallRecord>)
    requires before <= between <= after && first <= second <= third && Keeps(journal, later)
    requires |before| == |first| && |second| == |first| + |pairs|
    requires AllAnswered(config, journal, pairs, between[|before|..], second[|first|..])
    requires AllAnswered(config, later, rest, after[|between|..], third[|second|..])
    ensures AllAnswered(config, later, pairs + rest, after[|before|..], third[|first|..])
  {
    forall k | 0 <= k < |after| - |before|
      ensures AnsweredAs(config, later, (pairs + rest)[k].0, (pairs + rest)[k].1, after[|before| + k],
                         third[|first| + k])
    {
      if k < |pairs| {
        assert between[|before|..][k] == after[|before| + k] && second[|first|..][k] == third[|first| + k];
        LaterJournalAnswers(config, journal, later, pairs[k].0, pairs[k].1, after[|before| + k], third[|first| + k]);
      } else {
        assert after[|between|..][k - |pairs|] == after[|before| + k];
        assert third[|second|..][k - |pairs|] == third[|first| + k];
      }
    }
  }

  lemma FewerAnswered(
    config: Config, s: LoopState, end: LoopState, pairs: seq<(ToolCallRequest, CallScript)>,
    rest: seq<(ToolCallRequest, CallScript)>)
    requires Answers(config, s, end, pairs)
    ensures Answers(config, s, end, pairs + rest)
  {
  }

  lemma {:induction false} LoopAnswers(config: Config, s: LoopState, scripts: seq<TurnScript>)
    requires |ResultsIn(s.history)| == |s.records|
    ensures Answers(config, s, Loop(config, s, scripts).0, Requested(config, scripts))
    decreases |scripts|
  {
    if scripts == [] {
      NothingNewAnswers(config, s, s, []);
    } else {
      var (next, ending) := Iterate(config, s, scripts[0]);
      var pairs := Paired(CallsServed(config, scripts[0]), scripts[0].calls);
      IterateAnswers(config, s, scripts[0]);
      if ending.Some? {
        FewerAnswered(config, s, next, pairs, Requested(config, scripts[1..]));
      } else {
        LoopAnswers(config, next, scripts[1..]);
        LaterTurnsAnswer(config, s, next, Loop(config, next, scripts[1..]).0, pairs,
                         Requested(config, scripts[1..]));
      }
    }
  }

  /** In every run, and wherever it ends, the tool results the model reads and the records that
      are reported answer the calls streamed, in order: refusals, failures and successes are
      told as what they are, the text is what the executor returned, and the journal holds,
      to the end of the run, what each record says of its call. */
  lemma EveryRunAnswers(config: Config, journal: Journal, scripts: seq<TurnScript>)
    ensures var end := Run(config, journal, scripts).0;
            AllAnswered(config, end.journal, Requested(config, scripts), ResultsIn(end.history), end.records)
  {
    var s := InitialState(journal);
    var end := Run(config, journal, scripts).0;
    LoopAnswers(config, s, scripts);
    assert ResultsIn(end.history)[|ResultsIn(s.history)|..] == ResultsIn(end.history);
    assert end.records[|s.records|..] == end.records;
  }
}
