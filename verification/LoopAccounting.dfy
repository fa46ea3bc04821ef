/** What every run of the agent loop accounts for: attempts against iterations,
    tokens, journal growth, call records, and the shape of the transcript. */
module LoopAccounting {
  import opened Wrappers
  import opened Transcript
  import opened ToolCalls
  import opened ToolJournal
  import opened StreamCollector
  import opened AgentLoop

  // ------------------------------------------------------------------
  // The calls of one turn
  // ------------------------------------------------------------------

  /** The call reached the executor and its result was recorded. */
  predicate Ran(record: CallRecord) {
    record.disposition.Executed? || record.disposition.ExecutionFailed?
  }

  function RanCount(records: seq<CallRecord>): nat {
    if records == [] then 0 else RanCount(records[..|records| - 1]) + if Ran(records[|records| - 1]) then 1 else 0
  }

  predicate StopsClosed(record: CallRecord) {
    record.disposition.AuthorizationRefused? && record.disposition.continuation == StopClosed
  }

  /** Records and tool results describe the same calls, one for one. */
  ghost predicate SameCalls(results: seq<ToolResultPayload>, records: seq<CallRecord>) {
    |results| == |records| && forall i :: 0 <= i < |results| ==> results[i].callId == records[i].callId
  }

  /** What serving the calls of a turn leaves behind, whatever the environment does. */
  ghost predicate BatchAccounts(before: Journal, b: BatchEffect) {
    && SameCalls(b.results, b.records)
    && |before.intents| + RanCount(b.records) <= |b.journal.intents|
       <= |before.intents| + RanCount(b.records) + (if b.died then 1 else 0)
    && (b.fatal <==> exists record :: record in b.records && StopsClosed(record))
  }

  lemma OneCallAccounts(config: Config, before: Journal, b: BatchEffect, call: ToolCallRequest, script: CallScript)
    requires BatchAccounts(before, b) && !b.died
    ensures BatchAccounts(before, ServeOne(config, b, call, script))
  {
    CallTells(config, b.journal, call, script);
    TellingEffectAccounts(before, b, call, ServeCall(config, b.journal, call, script));
  }

  /** What one call's effect says of itself: its answer carries its id, the journal grew
      by a call that ran, and the run is to stop exactly when the record says so. */
  ghost predicate Tells(journal: Journal, call: ToolCallRequest, e: CallEffect) {
    && |journal.intents| <= |e.journal.intents| <= |journal.intents| + 1
    && (e.outcome.None? ==> !e.fatal)
    && (e.outcome.Some? ==>
          var record := CallRecord(call.callId, call.capabilityName, e.outcome.value.1);
          && e.outcome.value.0.callId == call.callId
          && |e.journal.intents| == |journal.intents| + (if Ran(record) then 1 else 0)
          && (e.fatal <==> StopsClosed(record)))
  }

  lemma CallTells(config: Config, journal: Journal, call: ToolCallRequest, script: CallScript)
    ensures Tells(journal, call, ServeCall(config, journal, call, script))
  {
    var validation := Validate(call, config.offered);
    if validation.Success? {
      ExecutingTells(journal, call, IntentFor(validation.value), script);
    }
  }

  lemma ExecutingTells(journal: Journal, call: ToolCallRequest, intent: Intent, script: CallScript)
    requires intent.callId == call.callId
    ensures Tells(journal, call, Execute(journal, intent, script))
  {
  }

  lemma TellingEffectAccounts(before: Journal, b: BatchEffect, call: ToolCallRequest, e: CallEffect)
    requires BatchAccounts(before, b) && !b.died && Tells(b.journal, call, e)
    ensures BatchAccounts(before, AddEffect(b, call, e))
  {
    if e.outcome.Some? {
      var record := CallRecord(call.callId, call.capabilityName, e.outcome.value.1);
      var next := AddEffect(b, call, e);
      assert next.records[..|next.records| - 1] == b.records && next.records[|b.records|] == record;
      assert forall other :: other in next.records <==> other in b.records || other == record;
    }
  }

  lemma {:induction false} BatchAccounting(
    config: Config, before: Journal, b: BatchEffect, calls: seq<ToolCallRequest>, scripts: seq<CallScript>)
    requires BatchAccounts(before, b)
    ensures BatchAccounts(before, ServeCalls(config, b, calls, scripts))
    decreases |calls|
  {
    if !b.died && calls != [] && scripts != [] {
      OneCallAccounts(config, before, b, calls[0], scripts[0]);
      BatchAccounting(config, before, ServeOne(config, b, calls[0], scripts[0]), calls[1..], scripts[1..]);
    }
  }

  /** The results past the first `from` ones answer these calls, one for one and in order. */
  ghost predicate AnswersFrom(results: seq<ToolResultPayload>, from: nat, calls: seq<ToolCallRequest>) {
    |results| == from + |calls| && forall i :: 0 <= i < |calls| ==> results[from + i].callId == calls[i].callId
  }

  /** Unless the process dies, every call of the turn is answered, in order, and
      recorded, also after a refusal that stops the run closed. */
  lemma {:induction false} EveryCallIsAnswered(
    config: Config, b: BatchEffect, calls: seq<ToolCallRequest>, scripts: seq<CallScript>)
    ensures var end := ServeCalls(config, b, calls, scripts);
            !end.died ==> b.results <= end.results && AnswersFrom(end.results, |b.results|, calls)
    decreases |calls|
  {
    if !b.died && calls != [] && scripts != [] {
      var next := ServeOne(config, b, calls[0], scripts[0]);
      EveryCallIsAnswered(config, next, calls[1..], scripts[1..]);
      ServeCallsKeepsDeath(config, next, calls[1..], scripts[1..]);
      OneCallExtends(config, b, calls[0], scripts[0]);
      if !next.died && next.results <= ServeCalls(config, next, calls[1..], scripts[1..]).results {
        OneMoreAnswer(b.results, next.results, ServeCalls(config, next, calls[1..], scripts[1..]).results, calls);
      }
    }
  }

  lemma OneCallExtends(config: Config, b: BatchEffect, call: ToolCallRequest, script: CallScript)
    ensures var next := ServeOne(config, b, call, script); next.died || Extends(b.results, next.results, call)
  {
    CallTells(config, b.journal, call, script);
  }

  ghost predicate Extends(before: seq<ToolResultPayload>, next: seq<ToolResultPayload>, call: ToolCallRequest) {
    |next| == |before| + 1 && before <= next && next[|before|].callId == call.callId
  }

  lemma OneMoreAnswer(
    before: seq<ToolResultPayload>, next: seq<ToolResultPayload>, end: seq<ToolResultPayload>,
    calls: seq<ToolCallRequest>)
    requires calls != [] && Extends(before, next, calls[0]) && next <= end
    ensures before <= end
    ensures AnswersFrom(end, |next|, calls[1..]) ==> AnswersFrom(end, |before|, calls)
  {
    assert end[|before|] == next[|before|];
    if AnswersFrom(end, |next|, calls[1..]) {
      forall i | 0 <= i < |calls| ensures end[|before| + i].callId == calls[i].callId {
        if i > 0 {
          assert end[|next| + (i - 1)].callId == calls[1..][i - 1].callId;
        }
      }
    }
  }

  lemma {:induction false} ServeCallsKeepsDeath(
    config: Config, b: BatchEffect, calls: seq<ToolCallRequest>, scripts: seq<CallScript>)
    ensures b.died ==> ServeCalls(config, b, calls, scripts) == b
  {
  }

  // ------------------------------------------------------------------
  // What holds between two passes of the loop
  // ------------------------------------------------------------------

  function TokensOf(attempts: seq<Attempt>): nat {
    if attempts == [] then 0 else TokensOf(attempts[..|attempts| - 1]) + OutputTokens(attempts[|attempts| - 1].usage)
  }

  lemma TokensAppend(attempts: seq<Attempt>, attempt: Attempt)
    ensures TokensOf(attempts + [attempt]) == TokensOf(attempts) + OutputTokens(attempt.usage)
  {
    assert (attempts + [attempt])[..|attempts|] == attempts;
  }

  /** Attempt k answers submission k, and only the attempts from `ambiguousFrom` on are ambiguous. */
  ghost predicate AttemptsAccount(s: LoopState, ambiguousFrom: int) {
    && |s.attempts| <= |s.requests|
    && forall k :: 0 <= k < |s.attempts| ==>
         s.attempts[k].submission == k + 1 && (s.attempts[k].ambiguous <==> k >= ambiguousFrom)
  }

  /** The tokens known before each submission were below the ceiling. */
  ghost predicate BelowTokenCeiling(config: Config, s: LoopState) {
    config.maxOutputTokens.Some? ==>
      forall k :: 0 <= k < |s.requests| && k <= |s.attempts| ==>
        TokensOf(s.attempts[..k]) < config.maxOutputTokens.value
  }

  /** Every request extends the one before it, and the conversation extends them all. */
  ghost predicate RequestsGrow(config: Config, s: LoopState) {
    && (forall k, l :: 0 <= k <= l < |s.requests| ==> s.requests[k] <= s.requests[l])
    && (forall k :: 0 <= k < |s.requests| ==> s.requests[k] <= Compose(config, s.history))
  }

  /** Every request is the composition of an answered transcript. */
  ghost predicate RequestsAnswered(config: Config, s: LoopState) {
    forall request | request in s.requests :: AnsweredRequest(config, request)
  }

  ghost predicate AnsweredRequest(config: Config, request: seq<Message>) {
    exists turns: seq<Turn> ::
      request == Compose(config, Flatten(turns)) && forall turn | turn in turns :: turn.Answered()
  }

  /** The tool results of a conversation, in order. */
  function ResultsIn(history: seq<Message>): seq<ToolResultPayload> {
    if history == [] then []
    else
      var last := history[|history| - 1];
      ResultsIn(history[..|history| - 1]) + if last.content.ToolResult? then [last.content.result] else []
  }

  lemma {:induction false} ResultsInAppend(history: seq<Message>, more: seq<Message>)
    ensures ResultsIn(history + more) == ResultsIn(history) + ResultsIn(more)
    decreases |more|
  {
    if more == [] {
      assert history + more == history;
    } else {
      assert (history + more)[..|history + more| - 1] == history + more[..|more| - 1];
      ResultsInAppend(history, more[..|more| - 1]);
    }
  }

  lemma {:induction false} ResultsInResultMessages(results: seq<ToolResultPayload>)
    ensures ResultsIn(ResultMessages(results)) == results
    decreases |results|
  {
    if results != [] {
      var n := |results| - 1;
      assert ResultMessages(results)[..n] == ResultMessages(results[..n]);
      ResultsInResultMessages(results[..n]);
      assert results[..n] + [results[n]] == results;
    }
  }

  /** Tool results and call records tell of the same calls; the journal grew by the
      calls that ran, and by at most one more if the process died. */
  ghost predicate CallsAccount(before: Journal, s: LoopState, died: bool) {
    && SameCalls(ResultsIn(s.history), s.records)
    && |before.intents| + RanCount(s.records) <= |s.journal.intents|
       <= |before.intents| + RanCount(s.records) + (if died then 1 else 0)
  }

  ghost predicate WellFormedTranscript(history: seq<Message>) {
    exists turns: seq<Turn> :: Flatten(turns) == history && forall turn | turn in turns :: turn.Answered()
  }

  /** The invariant of the loop. */
  ghost predicate Going(config: Config, before: Journal, s: LoopState) {
    && |s.attempts| == s.iterations == |s.requests| <= config.maxIterations
    && s.outputTokens == TokensOf(s.attempts)
    && AttemptsAccount(s, |s.attempts|)
    && BelowTokenCeiling(config, s)
    && RequestsGrow(config, s) && RequestsAnswered(config, s)
    && CallsAccount(before, s, false)
    && WellFormedTranscript(s.history)
  }

  predicate EndsInDoubt(ending: Ending) {
    ending == Stopped(Timeout) || ending == Stopped(ProviderFailure(AmbiguousFailure))
  }

  /** What a finished run reports. */
  ghost predicate Accounts(config: Config, before: Journal, s: LoopState, ending: Ending) {
    && |s.attempts| <= s.iterations <= config.maxIterations
    && s.iterations <= |s.attempts| + 1
    && AttemptsAccount(s, if EndsInDoubt(ending) then |s.attempts| - 1 else |s.attempts|)
    && (EndsInDoubt(ending) ==> s.attempts != [])
    && BelowTokenCeiling(config, s)
    && RequestsGrow(config, s) && RequestsAnswered(config, s)
    && CallsAccount(before, s, ending == Died)
    && (ending != Died ==> WellFormedTranscript(s.history))
  }

  // ------------------------------------------------------------------
  // One pass keeps the invariant
  // ------------------------------------------------------------------

  lemma SubmittingAccounts(config: Config, before: Journal, s: LoopState)
    requires Going(config, before, s) && CeilingStop(config, s).None?
    ensures var sent := Submitted(config, s);
            && AttemptsAccount(sent, |sent.attempts|) && BelowTokenCeiling(config, sent)
            && RequestsGrow(config, sent) && RequestsAnswered(config, sent)
  {
    assert s.attempts[..|s.attempts|] == s.attempts;
    AnotherRequestIsAnswered(config, s);
  }

  lemma AnotherRequestIsAnswered(config: Config, s: LoopState)
    requires RequestsGrow(config, s) && RequestsAnswered(config, s) && WellFormedTranscript(s.history)
    ensures RequestsGrow(config, Submitted(config, s)) && RequestsAnswered(config, Submitted(config, s))
  {
    assert AnsweredRequest(config, Compose(config, s.history));
  }

  lemma InDoubtAccounts(config: Config, s: LoopState)
    requires |s.requests| == |s.attempts| + 1
    requires AttemptsAccount(s, |s.attempts|) && BelowTokenCeiling(config, s)
    ensures var t := InDoubtAttempt(s);
            AttemptsAccount(t, |t.attempts| - 1) && BelowTokenCeiling(config, t)
  {
    var t := InDoubtAttempt(s);
    forall k | 0 <= k < |t.requests| ensures t.attempts[..k] == s.attempts[..k] {
    }
  }

  lemma ReceivingAccounts(config: Config, s: LoopState, collected: Collected, outcome: SubmitOutcome)
    requires |s.requests| == |s.attempts| + 1 && s.outputTokens == TokensOf(s.attempts)
    requires AttemptsAccount(s, |s.attempts|) && BelowTokenCeiling(config, s) && RequestsGrow(config, s)
    ensures var t := Received(s, collected, outcome);
            && t.outputTokens == TokensOf(t.attempts)
            && AttemptsAccount(t, |t.attempts|) && BelowTokenCeiling(config, t) && RequestsGrow(config, t)
  {
    var t := Received(s, collected, outcome);
    TokensAppend(s.attempts, t.attempts[|s.attempts|]);
    MoreAttemptsAccount(config, s, t);
    LongerHistoryCarriesRequests(config, s, t);
  }

  /** The certain attempt that answers the last request keeps the attempts in order. */
  lemma MoreAttemptsAccount(config: Config, s: LoopState, t: LoopState)
    requires |s.requests| == |s.attempts| + 1 && t.requests == s.requests
    requires |t.attempts| == |s.requests| && t.attempts[..|s.attempts|] == s.attempts
    requires t.attempts[|s.attempts|].submission == |s.requests| && !t.attempts[|s.attempts|].ambiguous
    requires AttemptsAccount(s, |s.attempts|) && BelowTokenCeiling(config, s)
    ensures AttemptsAccount(t, |t.attempts|) && BelowTokenCeiling(config, t)
  {
    forall k | 0 <= k < |t.requests| ensures t.attempts[..k] == s.attempts[..k] {
      assert t.attempts[..|s.attempts|][..k] == t.attempts[..k];
    }
  }

  lemma LongerHistoryCarriesRequests(config: Config, s: LoopState, t: LoopState)
    requires RequestsGrow(config, s) && t.requests == s.requests && s.history <= t.history
    ensures RequestsGrow(config, t)
  {
    assert Compose(config, s.history) <= Compose(config, t.history);
  }

  /** Adding a turn's text and its answered calls keeps the transcript well formed. */
  lemma TurnExtendsTranscript(history: seq<Message>, turn: Turn)
    requires WellFormedTranscript(history) && turn.Answered()
    ensures WellFormedTranscript(history + turn.Messages())
  {
    var turns: seq<Turn> :| Flatten(turns) == history && forall t | t in turns :: t.Answered();
    FlattenAppend(turns, turn);
    assert Flatten(turns + [turn]) == history + turn.Messages();
  }

  lemma QuietTurnKeepsCalls(before: Journal, s: LoopState, collected: Collected, outcome: SubmitOutcome)
    requires CallsAccount(before, s, false) && WellFormedTranscript(s.history)
    ensures var t := Received(s, collected, outcome);
            CallsAccount(before, t, false) && WellFormedTranscript(t.history)
  {
    if collected.text.Some? {
      var turn := Turn(collected.text, [], []);
      assert turn.Messages() == [Message(Assistant, Text(collected.text.value))];
      TurnExtendsTranscript(s.history, turn);
      ResultsInAppend(s.history, turn.Messages());
      assert ResultsIn(turn.Messages()) == [];
    }
  }

  lemma {:induction false} RanCountAppend(a: seq<CallRecord>, b: seq<CallRecord>)
    ensures RanCount(a + b) == RanCount(a) + RanCount(b)
    decreases |b|
  {
    if b == [] {
      assert a + b == a;
    } else {
      assert (a + b)[..|a + b| - 1] == a + b[..|b| - 1];
      RanCountAppend(a, b[..|b| - 1]);
    }
  }

  lemma ServedResults(s: LoopState, calls: seq<ToolCallRequest>, b: BatchEffect)
    ensures ResultsIn(Served(s, calls, b).history) == ResultsIn(s.history) + b.results
  {
    var issued := [Message(Assistant, ToolCalls(PayloadsOf(calls)))];
    ResultsInAppend(s.history + issued, ResultMessages(b.results));
    ResultsInAppend(s.history, issued);
    assert ResultsIn(issued) == [];
    ResultsInResultMessages(b.results);
  }

  lemma ServedTurnKeepsCalls(
    config: Config, before: Journal, s: LoopState, calls: seq<ToolCallRequest>, scripts: seq<CallScript>)
    requires CallsAccount(before, s, false)
    ensures var b := ServeCalls(config, FreshBatch(s.journal), calls, scripts);
            CallsAccount(before, Served(s, calls, b), b.died)
  {
    var b := ServeCalls(config, FreshBatch(s.journal), calls, scripts);
    BatchAccounting(config, s.journal, FreshBatch(s.journal), calls, scripts);
    ServedCallsAccount(before, s, calls, b);
  }

  lemma ServedCallsAccount(before: Journal, s: LoopState, calls: seq<ToolCallRequest>, b: BatchEffect)
    requires CallsAccount(before, s, false) && BatchAccounts(s.journal, b)
    ensures CallsAccount(before, Served(s, calls, b), b.died)
  {
    ServedResults(s, calls, b);
    RanCountAppend(s.records, b.records);
  }

  lemma ServedHistory(s: LoopState, collected: Collected, outcome: SubmitOutcome, b: BatchEffect)
    requires collected.completed != []
    ensures Served(Received(s, collected, outcome), collected.completed, b).history
            == s.history + Turn(collected.text, PayloadsOf(collected.completed), b.results).Messages()
  {
  }

  /** A turn with calls: text, calls and results together are one answered turn. */
  lemma BatchAnswers(
    config: Config, journal: Journal, text: Option<string>, calls: seq<ToolCallRequest>, scripts: seq<CallScript>)
    ensures var b := ServeCalls(config, FreshBatch(journal), calls, scripts);
            !b.died ==> Turn(text, PayloadsOf(calls), b.results).Answered()
  {
    EveryCallIsAnswered(config, FreshBatch(journal), calls, scripts);
  }

  lemma ServedTurnIsAnswered(
    config: Config, s: LoopState, collected: Collected, outcome: SubmitOutcome, scripts: seq<CallScript>)
    requires WellFormedTranscript(s.history) && collected.completed != []
    ensures var received := Received(s, collected, outcome);
            var b := ServeCalls(config, FreshBatch(received.journal), collected.completed, scripts);
            !b.died ==> WellFormedTranscript(Served(received, collected.completed, b).history)
  {
    var received := Received(s, collected, outcome);
    var b := ServeCalls(config, FreshBatch(received.journal), collected.completed, scripts);
    if !b.died {
      BatchAnswers(config, received.journal, collected.text, collected.completed, scripts);
      TurnExtendsTranscript(s.history, Turn(collected.text, PayloadsOf(collected.completed), b.results));
      ServedHistory(s, collected, outcome, b);
    }
  }

  lemma ReceivingKeepsGoing(config: Config, before: Journal, s: LoopState, collected: Collected, outcome: SubmitOutcome)
    requires Going(config, before, s) && CeilingStop(config, s).None?
    ensures Going(config, before, Received(Submitted(config, s), collected, outcome))
  {
    SubmittingAccounts(config, before, s);
    ReceivingAccounts(config, Submitted(config, s), collected, outcome);
    QuietTurnKeepsCalls(before, Submitted(config, s), collected, outcome);
  }

  lemma ServingAccounts(config: Config, before: Journal, s: LoopState, calls: seq<ToolCallRequest>, b: BatchEffect)
    requires Going(config, before, s) && CallsAccount(before, Served(s, calls, b), b.died)
    requires !b.died ==> WellFormedTranscript(Served(s, calls, b).history)
    ensures var next := Served(s, calls, b);
            && (!b.died && !b.fatal ==> Going(config, before, next))
            && (b.died ==> Accounts(config, before, next, Died))
            && (!b.died ==> Accounts(config, before, next, Stopped(FatalToolRefusal)))
  {
    LongerHistoryCarriesRequests(config, s, Served(s, calls, b));
  }

  lemma AnsweredTurnAccounts(config: Config, before: Journal, s: LoopState, script: TurnScript)
    requires Going(config, before, s) && !script.cancelled && CeilingStop(config, s).None?
             && script.submission.Answered?
    ensures var (next, ending) := Iterate(config, s, script);
            && (ending.None? ==> Going(config, before, next))
            && (ending.Some? ==> Accounts(config, before, next, ending.value))
  {
    var outcome := script.submission.outcome;
    var collected := Collect(config.parse, NOTHING_COLLECTED, script.submission.events);
    var received := Received(Submitted(config, s), collected, outcome);
    ReceivingKeepsGoing(config, before, s, collected, outcome);
    if collected.completed != [] {
      var b := ServeCalls(config, FreshBatch(received.journal), collected.completed, script.calls);
      ServedTurnKeepsCalls(config, before, received, collected.completed, script.calls);
      ServedTurnIsAnswered(config, Submitted(config, s), collected, outcome, script.calls);
      ServingAccounts(config, before, received, collected.completed, b);
    }
  }

  lemma UnansweredTurnAccounts(config: Config, before: Journal, s: LoopState, script: TurnScript)
    requires Going(config, before, s) && !script.cancelled && CeilingStop(config, s).None?
             && !script.submission.Answered?
    ensures var (next, ending) := Iterate(config, s, script);
            ending.Some? && Accounts(config, before, next, ending.value)
  {
    var sent := Submitted(config, s);
    SubmittingAccounts(config, before, s);
    var (next, ending) := Iterate(config, s, script);
    if EndsInDoubt(ending.value) {
      InDoubtEndAccounts(config, before, s, ending.value);
    } else {
      assert next == sent;
    }
  }

  /** A run that ends right after a submission in doubt. */
  lemma InDoubtEndAccounts(config: Config, before: Journal, s: LoopState, ending: Ending)
    requires Going(config, before, s) && CeilingStop(config, s).None? && EndsInDoubt(ending)
    ensures Accounts(config, before, InDoubtAttempt(Submitted(config, s)), ending)
  {
    var sent := Submitted(config, s);
    SubmittingAccounts(config, before, s);
    InDoubtAccounts(config, sent);
    assert RequestsGrow(config, InDoubtAttempt(sent));
  }

  lemma UnsubmittedTurnAccounts(config: Config, before: Journal, s: LoopState, script: TurnScript)
    requires Going(config, before, s) && (script.cancelled || CeilingStop(config, s).Some?)
    ensures var (next, ending) := Iterate(config, s, script);
            ending.Some? && Accounts(config, before, next, ending.value)
  {
    var (next, ending) := Iterate(config, s, script);
    assert next == s || next == s.(iterations := s.iterations + 1);
    assert BelowTokenCeiling(config, next) && RequestsGrow(config, next);
  }

  lemma IterateAccounts(config: Config, before: Journal, s: LoopState, script: TurnScript)
    requires Going(config, before, s)
    ensures var (next, ending) := Iterate(config, s, script);
            && (ending.None? ==> Going(config, before, next))
            && (ending.Some? ==> Accounts(config, before, next, ending.value))
  {
    if script.cancelled || CeilingStop(config, s).Some? {
      UnsubmittedTurnAccounts(config, before, s, script);
    } else if script.submission.Answered? {
      AnsweredTurnAccounts(config, before, s, script);
    } else {
      UnansweredTurnAccounts(config, before, s, script);
    }
  }

  lemma {:induction false} LoopAccounts(config: Config, before: Journal, s: LoopState, scripts: seq<TurnScript>)
    requires Going(config, before, s)
    ensures var (end, ending) := Loop(config, s, scripts);
            Accounts(config, before, end, ending)
    decreases |scripts|
  {
    if scripts != [] {
      IterateAccounts(config, before, s, scripts[0]);
      var (next, ending) := Iterate(config, s, scripts[0]);
      if ending.None? {
        LoopAccounts(config, before, next, scripts[1..]);
      }
    }
  }

  /** Every run accounts for its attempts, tokens, requests and calls. */
  lemma EveryRunAccounts(config: Config, journal: Journal, scripts: seq<TurnScript>)
    ensures var (end, ending) := Run(config, journal, scripts);
            Accounts(config, journal, end, ending)
  {
    assert Flatten([]) == [];
    assert Going(config, journal, InitialState(journal));
    LoopAccounts(config, journal, InitialState(journal), scripts);
  }

  // ------------------------------------------------------------------
  // Refusals that stop a run
  // ------------------------------------------------------------------

  predicate NoneStopsClosed(records: seq<CallRecord>) {
    forall record | record in records :: !StopsClosed(record)
  }

  lemma IterateStopsOnRefusal(config: Config, s: LoopState, script: TurnScript)
    requires NoneStopsClosed(s.records)
    ensures var (next, ending) := Iterate(config, s, script);
            && (ending.None? ==> NoneStopsClosed(next.records))
            && (ending.Some? && ending.value.Stopped? ==>
                  (ending.value.reason == FatalToolRefusal <==> !NoneStopsClosed(next.records)))
  {
    if !script.cancelled && CeilingStop(config, s).None? && script.submission.Answered? {
      var collected := Collect(config.parse, NOTHING_COLLECTED, script.submission.events);
      var received := Received(Submitted(config, s), collected, script.submission.outcome);
      var batch := FreshBatch(received.journal);
      BatchAccounting(config, received.journal, batch, collected.completed, script.calls);
      var b := ServeCalls(config, batch, collected.completed, script.calls);
      RefusalsAdd(s.records, b.records);
    }
  }

  lemma RefusalsAdd(a: seq<CallRecord>, b: seq<CallRecord>)
    ensures NoneStopsClosed(a + b) <==> NoneStopsClosed(a) && NoneStopsClosed(b)
  {
    assert forall record :: record in a + b <==> record in a || record in b;
  }

  lemma {:induction false} LoopStopsOnRefusal(config: Config, s: LoopState, scripts: seq<TurnScript>)
    requires NoneStopsClosed(s.records)
    ensures var (end, ending) := Loop(config, s, scripts);
            ending.Stopped? ==> (ending.reason == FatalToolRefusal <==> !NoneStopsClosed(end.records))
    decreases |scripts|
  {
    if scripts != [] {
      IterateStopsOnRefusal(config, s, scripts[0]);
      var (next, ending) := Iterate(config, s, scripts[0]);
      if ending.None? { LoopStopsOnRefusal(config, next, scripts[1..]); }
    }
  }

  /** A run stops for a fatal refusal exactly when one of its calls was refused that
      way: such a refusal is never passed over, and nothing else is reported as one. */
  lemma RefusalStopsTheRunExactly(config: Config, journal: Journal, scripts: seq<TurnScript>)
    ensures var (end, ending) := Run(config, journal, scripts);
            ending.Stopped? ==>
              (ending.reason == FatalToolRefusal <==> exists record :: record in end.records && StopsClosed(record))
  {
    LoopStopsOnRefusal(config, InitialState(journal), scripts);
  }
}
