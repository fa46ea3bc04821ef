/** One run with one adapter: the registry is seeded by every request, grows by every
    stream, and still tells each next request exactly what the model issued
    (crates/familiar-ai-agent/src/raw_runtime.rs, lines 877-1043;
    crates/familiar-ai-agent/src/anthropic.rs, lines 177-349 and 481-591). */
module Conversation {
  import opened Wrappers
  import opened Transcript
  import opened ToolCalls
  import opened ToolJournal
  import opened StreamCollector
  import opened AgentLoop
  import opened LoopAccounting
  import opened AnthropicAdapter
  import opened WireConversation
  import opened WireFilters
  import opened StreamedCalls

  // ------------------------------------------------------------------
  // What a conversion leaves in the registry
  // ------------------------------------------------------------------

  function RecordedIn(message: Message): seq<ToolCallPayload> {
    match message
    case Message(Assistant, ToolCalls(calls)) => calls
    case _ => []
  }

  /** The calls recorded in a message list. */
  function Recorded(messages: seq<Message>): seq<ToolCallPayload> {
    if messages == [] then [] else RecordedIn(messages[0]) + Recorded(messages[1..])
  }

  lemma {:induction false} RecordedAppend(a: seq<Message>, b: seq<Message>)
    ensures Recorded(a + b) == Recorded(a) + Recorded(b)
  {
    if a == [] {
      assert a + b == b;
    } else {
      assert (a + b)[0] == a[0] && (a + b)[1..] == a[1..] + b;
      RecordedAppend(a[1..], b);
    }
  }

  lemma {:induction false} ResultsRecordNothing(results: seq<ToolResultPayload>)
    ensures Recorded(ResultMessages(results)) == []
  {
    if results != [] {
      assert ResultMessages(results)[1..] == ResultMessages(results[1..]);
      ResultsRecordNothing(results[1..]);
    }
  }

  lemma TurnRecordsItsCalls(turn: Turn)
    requires turn.Answered()
    ensures Recorded(turn.Messages()) == turn.calls
  {
    var spoken := if turn.text.Some? then [Message(Assistant, Text(turn.text.value))] else [];
    var issued := [Message(Assistant, ToolCalls(turn.calls))];
    assert turn.text.Some? ==> spoken[1..] == [];
    assert Recorded(spoken) == [];
    if turn.calls == [] {
      assert turn.Messages() == spoken;
    } else {
      assert issued[1..] == [];
      assert Recorded(issued) == turn.calls;
      ResultsRecordNothing(turn.results);
      RecordedAppend(issued, ResultMessages(turn.results));
      RecordedAppend(spoken, issued + ResultMessages(turn.results));
      assert turn.Messages() == spoken + (issued + ResultMessages(turn.results));
    }
  }

  lemma {:induction false} TurnsRecordTheirCalls(turns: seq<Turn>)
    requires forall turn: Turn | turn in turns :: turn.Answered()
    ensures Recorded(Flatten(turns)) == IssuedCalls(turns)
  {
    if turns != [] {
      TurnRecordsItsCalls(turns[0]);
      TurnsRecordTheirCalls(turns[1..]);
      RecordedAppend(turns[0].Messages(), Flatten(turns[1..]));
    }
  }

  lemma {:induction false} LeadingRecordNothing(messages: seq<Message>, n: nat)
    requires n <= |LeadingResults(messages)|
    ensures Recorded(messages) == Recorded(messages[n..])
  {
    if n == 0 {
      assert messages[0..] == messages;
    } else {
      LeadingRecordNothing(messages[1..], n - 1);
      assert messages[1..][n - 1..] == messages[n..];
    }
  }

  /** What a step takes records the calls it seeds the registry with. */
  lemma StepRecords(parse: JsonParser, registry: Registry, messages: seq<Message>)
    requires messages != []
    ensures var step := NextStep(parse, registry, messages);
            && step.registry == SeededAll(parse, registry, RecordedIn(messages[0]))
            && Recorded(messages) == RecordedIn(messages[0]) + Recorded(messages[step.taken..])
  {
    match messages[0]
    case Message(Assistant, Text(text)) => ResultsBehindRecordNothing(messages, |LeadingResults(messages[1..])|);
    case Message(Tool, ToolResult(_)) => LeadingRecordNothing(messages, |LeadingResults(messages)|);
    case _ =>
  }

  lemma ResultsBehindRecordNothing(messages: seq<Message>, n: nat)
    requires messages != [] && RecordedIn(messages[0]) == [] && n <= |LeadingResults(messages[1..])|
    ensures Recorded(messages) == Recorded(messages[1 + n..])
  {
    LeadingRecordNothing(messages[1..], n);
    assert messages[1..][n..] == messages[1 + n..];
  }

  lemma StepSeeds(parse: JsonParser, registry: Registry, messages: seq<Message>)
    requires messages != []
    ensures var step := NextStep(parse, registry, messages);
            SeededAll(parse, registry, Recorded(messages))
            == SeededAll(parse, step.registry, Recorded(messages[step.taken..]))
  {
    var step := NextStep(parse, registry, messages);
    StepRecords(parse, registry, messages);
    SeededAllAppend(parse, registry, RecordedIn(messages[0]), Recorded(messages[step.taken..]));
  }

  /** Converting a list seeds the registry with the calls recorded in it, in order. */
  lemma {:induction false} ConversionSeeds(parse: JsonParser, registry: Registry, messages: seq<Message>)
    ensures Convert(parse, registry, messages).registry == SeededAll(parse, registry, Recorded(messages))
    decreases |messages|
  {
    if messages != [] {
      var step := NextStep(parse, registry, messages);
      StepSeeds(parse, registry, messages);
      ConversionSeeds(parse, step.registry, messages[step.taken..]);
    }
  }

  lemma OpeningRecordsNothing(config: Config, history: seq<Message>)
    ensures Recorded(Compose(config, history)) == Recorded(history)
  {
    var system, user := Message(System, Text(config.prefix)), Message(User, Text(config.task));
    assert Compose(config, history) == [system] + ([user] + history);
    TextRecordsNothing(system, [user] + history);
    TextRecordsNothing(user, history);
  }

  lemma TextRecordsNothing(message: Message, rest: seq<Message>)
    requires message.content.Text?
    ensures Recorded([message] + rest) == Recorded(rest)
  {
    assert ([message] + rest)[1..] == rest;
    assert [] + Recorded(rest) == Recorded(rest);
  }

  lemma RequestSeeds(config: Config, registry: Registry, turns: seq<Turn>)
    requires forall turn: Turn | turn in turns :: turn.Answered()
    ensures Convert(config.parse, registry, Compose(config, Flatten(turns))).registry
            == SeededAll(config.parse, registry, IssuedCalls(turns))
  {
    TurnsRecordTheirCalls(turns);
    OpeningRecordsNothing(config, Flatten(turns));
    ConversionSeeds(config.parse, registry, Compose(config, Flatten(turns)));
  }

  lemma {:induction false} SeedingAddsOnlyTheirIds(parse: JsonParser, registry: Registry, calls: seq<ToolCallPayload>)
    ensures forall id :: id in SeededAll(parse, registry, calls) ==>
              id in registry || exists call :: call in calls && call.callId == id
    decreases |calls|
  {
    if calls != [] {
      var next := Seeded(parse, registry, calls[0]);
      SeedingAddsOnlyTheirIds(parse, next, calls[1..]);
      forall id | id in SeededAll(parse, registry, calls) && id !in registry
        ensures exists call :: call in calls && call.callId == id
      {
        if id in next { assert calls[0] in calls && calls[0].callId == id; }
      }
    }
  }

  // ------------------------------------------------------------------
  // A run over one adapter
  // ------------------------------------------------------------------

  /** What the provider does with one request, and the environment with the calls. */
  datatype Exchange =
    | Streamed(cancelled: bool, stream: seq<SseEvent>, outcome: SubmitOutcome, calls: seq<CallScript>)
    | Unanswered(cancelled: bool, error: Option<AdapterError>)

  /** The registry once the stream has been folded. */
  function RegistryAfter(parse: JsonParser, registry: Registry, exchange: Exchange): Registry {
    if exchange.Streamed? then FoldAll(parse, StartOfStream(registry), exchange.stream).registry else registry
  }

  /** What the loop hears of it. */
  function ScriptOf(parse: JsonParser, registry: Registry, exchange: Exchange): TurnScript {
    match exchange
    case Streamed(cancelled, stream, outcome, calls) =>
      TurnScript(cancelled, Answered(FoldAll(parse, StartOfStream(registry), stream).emitted, outcome), calls)
    case Unanswered(cancelled, None) => TurnScript(cancelled, NoAnswer, [])
    case Unanswered(cancelled, Some(error)) => TurnScript(cancelled, Errored(error), [])
  }

  /** A request, the registry it met, and the calls streamed in the run before it. */
  datatype Sent = Sent(registry: Registry, request: seq<Message>, streamed: seq<ToolCallRequest>)

  /** The scripts the loop ran on, and what it submitted. */
  datatype Talk = Talk(scripts: seq<TurnScript>, sent: seq<Sent>)

  /** The request of a pass, if it submitted one. */
  function SentBy(
    config: Config, registry: Registry, s: LoopState, streamed: seq<ToolCallRequest>, next: LoopState): seq<Sent>
  {
    if |next.requests| > |s.requests| then [Sent(registry, Compose(config, s.history), streamed)] else []
  }

  function Converse(
    config: Config, registry: Registry, s: LoopState, streamed: seq<ToolCallRequest>, exchanges: seq<Exchange>): Talk
    decreases |exchanges|
  {
    if exchanges == [] then Talk([], [])
    else
      var request := Compose(config, s.history);
      var seeded := Convert(config.parse, registry, request).registry;
      var script := ScriptOf(config.parse, seeded, exchanges[0]);
      var (next, ending) := Iterate(config, s, script);
      var sent := SentBy(config, registry, s, streamed, next);
      if ending.Some? then Talk([script], sent)
      else
        var rest := Converse(config, RegistryAfter(config.parse, seeded, exchanges[0]), next,
                             streamed + CallsServed(config, script), exchanges[1..]);
        Talk([script] + rest.scripts, sent + rest.sent)
  }

  function RequestsOf(sent: seq<Sent>): (requests: seq<seq<Message>>)
    ensures |requests| == |sent|
  {
    seq(|sent|, i requires 0 <= i < |sent| => sent[i].request)
  }

  lemma IterateSubmits(config: Config, s: LoopState, script: TurnScript)
    ensures var next := Iterate(config, s, script).0;
            next.requests == s.requests || next.requests == s.requests + [Compose(config, s.history)]
  {
  }

  /** One pass submits the request the talk records for it, if it submits any. */
  lemma PassSends(
    config: Config, registry: Registry, s: LoopState, streamed: seq<ToolCallRequest>, script: TurnScript)
    ensures var next := Iterate(config, s, script).0;
            next.requests == s.requests + RequestsOf(SentBy(config, registry, s, streamed, next))
  {
    IterateSubmits(config, s, script);
    assert s.requests + [] == s.requests;
  }

  lemma LoopStep(config: Config, s: LoopState, script: TurnScript, rest: seq<TurnScript>)
    ensures var (next, ending) := Iterate(config, s, script);
            Loop(config, s, [script] + rest) == if ending.Some? then (next, ending.value) else Loop(config, next, rest)
  {
    assert ([script] + rest)[1..] == rest;
  }

  lemma RequestsAppend(a: seq<Sent>, b: seq<Sent>)
    ensures RequestsOf(a + b) == RequestsOf(a) + RequestsOf(b)
  {
  }

  /** The talk is the loop's: run on its scripts, the loop submits its requests. */
  lemma {:induction false} ConverseIsTheLoop(
    config: Config, registry: Registry, s: LoopState, streamed: seq<ToolCallRequest>, exchanges: seq<Exchange>)
    ensures var talk := Converse(config, registry, s, streamed, exchanges);
            Loop(config, s, talk.scripts).0.requests == s.requests + RequestsOf(talk.sent)
    decreases |exchanges|
  {
    if exchanges == [] {
      assert s.requests + [] == s.requests;
    } else {
      var request := Compose(config, s.history);
      var seeded := Convert(config.parse, registry, request).registry;
      var script := ScriptOf(config.parse, seeded, exchanges[0]);
      var (next, ending) := Iterate(config, s, script);
      var sent := SentBy(config, registry, s, streamed, next);
      PassSends(config, registry, s, streamed, script);
      if ending.Some? {
        LoopStep(config, s, script, []);
        assert [script] + [] == [script];
      } else {
        var after := RegistryAfter(config.parse, seeded, exchanges[0]);
        var more := streamed + CallsServed(config, script);
        ConverseIsTheLoop(config, after, next, more, exchanges[1..]);
        GoingOn(config, registry, s, streamed, script, Converse(config, after, next, more, exchanges[1..]));
      }
    }
  }

  lemma GoingOn(
    config: Config, registry: Registry, s: LoopState, streamed: seq<ToolCallRequest>, script: TurnScript, rest: Talk)
    requires var (next, ending) := Iterate(config, s, script);
             ending.None? && Loop(config, next, rest.scripts).0.requests == next.requests + RequestsOf(rest.sent)
    ensures var next := Iterate(config, s, script).0;
            Loop(config, s, [script] + rest.scripts).0.requests
            == s.requests + RequestsOf(SentBy(config, registry, s, streamed, next) + rest.sent)
  {
    var next := Iterate(config, s, script).0;
    PassSends(config, registry, s, streamed, script);
    LoopStep(config, s, script, rest.scripts);
    RequestsChain(s.requests, SentBy(config, registry, s, streamed, next), rest.sent);
  }

  lemma RequestsChain(
    before: seq<seq<Message>>, sent: seq<Sent>, rest: seq<Sent>)
    ensures (before + RequestsOf(sent)) + RequestsOf(rest) == before + RequestsOf(sent + rest)
  {
    RequestsAppend(sent, rest);
  }

  // ------------------------------------------------------------------
  // The registry stays faithful
  // ------------------------------------------------------------------

  /** Before each request: the transcript is these answered turns, their calls are distinct
      and under used ids, and the registry tells nothing else of them. */
  ghost predicate Knows(parse: JsonParser, registry: Registry, used: set<string>, turns: seq<Turn>) {
    && (forall turn: Turn | turn in turns :: turn.Answered())
    && DistinctCalls(IssuedCalls(turns)) && Faithful(parse, registry, IssuedCalls(turns))
    && registry.Keys <= used && (forall call | call in IssuedCalls(turns) :: call.callId in used)
  }

  lemma SeedingKnows(config: Config, registry: Registry, used: set<string>, turns: seq<Turn>)
    requires Knows(config.parse, registry, used, turns)
    ensures var seeded := Convert(config.parse, registry, Compose(config, Flatten(turns))).registry;
            Knows(config.parse, seeded, used, turns)
              && forall call | call in IssuedCalls(turns) :: call.callId in seeded
  {
    var calls := IssuedCalls(turns);
    RequestSeeds(config, registry, turns);
    SeedingIsFaithful(config.parse, registry, calls, calls);
    SeedingAddsOnlyTheirIds(config.parse, registry, calls);
  }

  lemma IssuedCallsAppend(turns: seq<Turn>, turn: Turn)
    ensures IssuedCalls(turns + [turn]) == IssuedCalls(turns) + turn.calls
  {
    if turns == [] {
      assert turns + [turn] == [turn] && [turn][1..] == [];
    } else {
      assert (turns + [turn])[1..] == turns[1..] + [turn];
      IssuedCallsAppend(turns[1..], turn);
    }
  }

  /** What a stream tells of its calls: new ids, remembered as completed. */
  ghost predicate Learned(
    parse: JsonParser, before: Registry, used: set<string>, after: Registry, used': set<string>,
    completed: seq<ToolCallRequest>)
  {
    && used <= used' && after.Keys <= used'
    && (forall id :: id in before ==> id in after && after[id] == before[id])
    && (forall call | call in completed ::
          RememberedAsCompleted(after, call) && call.callId in used' && call.callId !in used)
    && (forall i, j :: 0 <= i < j < |completed| ==> completed[i].callId != completed[j].callId)
    && Reparse(parse, completed)
  }

  lemma StreamIsLearned(parse: JsonParser, registry: Registry, used: set<string>, stream: seq<SseEvent>)
    requires parse("") == None && RoundTrips(parse) && WellFormed(stream, {}, used) && registry.Keys <= used
    ensures var g := FoldAll(parse, StartOfStream(registry), stream);
            Learned(parse, registry, used, g.registry, UsedAfter(stream, used), Observed(parse, g).completed)
  {
    var f := StartOfStream(registry);
    assert f.open.Keys == {};
    FoldAgrees(parse, registry, used, f, stream);
    StreamedCallsAreNew(parse, registry, used, used, f, stream);
    CollectedArgumentsReparse(parse, NOTHING_COLLECTED, FoldAll(parse, f, stream).emitted);
  }

  lemma NewPayload(parse: JsonParser, registry: Registry, call: ToolCallRequest)
    requires RememberedAsCompleted(registry, call) && Reparse(parse, [call])
    ensures Faithful(parse, registry, [PayloadOf(call)])
  {
    assert call in [call];
  }

  /** A turn streamed after what is known is known too. */
  lemma LearnedIsKnown(
    parse: JsonParser, before: Registry, used: set<string>, after: Registry, used': set<string>,
    turns: seq<Turn>, turn: Turn, completed: seq<ToolCallRequest>)
    requires Knows(parse, before, used, turns) && forall call | call in IssuedCalls(turns) :: call.callId in before
    requires Learned(parse, before, used, after, used', completed)
    requires turn.Answered() && turn.calls == PayloadsOf(completed)
    ensures Knows(parse, after, used', turns + [turn])
  {
    IssuedCallsAppend(turns, turn);
    forall call | call in IssuedCalls(turns + [turn]) ensures call.callId in used' && Faithful(parse, after, [call]) {
      LearnedCallIsFaithful(parse, before, used, after, used', turns, completed, call);
    }
    forall call | call in IssuedCalls(turns + [turn]) && call.callId in after
      ensures after[call.callId].name == call.capabilityName
              && after[call.callId].input == InputOf(parse, call.arguments)
    {
      assert call in [call];
    }
    forall a, b | a in IssuedCalls(turns + [turn]) && b in IssuedCalls(turns + [turn]) && a.callId == b.callId
      ensures a == b
    {
      LearnedCallsDiffer(turns, used, completed, a, b);
    }
  }

  lemma LearnedCallIsFaithful(
    parse: JsonParser, before: Registry, used: set<string>, after: Registry, used': set<string>,
    turns: seq<Turn>, completed: seq<ToolCallRequest>, call: ToolCallPayload)
    requires Knows(parse, before, used, turns) && forall other | other in IssuedCalls(turns) :: other.callId in before
    requires Learned(parse, before, used, after, used', completed)
    requires call in IssuedCalls(turns) || call in PayloadsOf(completed)
    ensures call.callId in used' && Faithful(parse, after, [call])
  {
    if call !in IssuedCalls(turns) {
      var i :| 0 <= i < |completed| && PayloadsOf(completed)[i] == call;
      assert completed[i] in completed;
      NewPayload(parse, after, completed[i]);
    }
  }

  lemma LearnedCallsDiffer(
    turns: seq<Turn>, used: set<string>, completed: seq<ToolCallRequest>, a: ToolCallPayload, b: ToolCallPayload)
    requires DistinctCalls(IssuedCalls(turns)) && forall call | call in IssuedCalls(turns) :: call.callId in used
    requires forall call | call in completed :: call.callId !in used
    requires forall i, j :: 0 <= i < j < |completed| ==> completed[i].callId != completed[j].callId
    requires a in IssuedCalls(turns) || a in PayloadsOf(completed)
    requires b in IssuedCalls(turns) || b in PayloadsOf(completed)
    requires a.callId == b.callId
    ensures a == b
  {
    if a !in IssuedCalls(turns) {
      var i :| 0 <= i < |completed| && PayloadsOf(completed)[i] == a;
      NewIsUnlike(turns, used, completed, i, b);
    } else if b !in IssuedCalls(turns) {
      NewIsUnused(used, completed, b);
    }
  }

  lemma NewIsUnused(used: set<string>, completed: seq<ToolCallRequest>, call: ToolCallPayload)
    requires call in PayloadsOf(completed) && forall other | other in completed :: other.callId !in used
    ensures call.callId !in used
  {
    var i :| 0 <= i < |completed| && PayloadsOf(completed)[i] == call;
    assert completed[i] in completed;
  }

  lemma NewIsUnlike(
    turns: seq<Turn>, used: set<string>, completed: seq<ToolCallRequest>, i: nat, other: ToolCallPayload)
    requires i < |completed| && (other in IssuedCalls(turns) || other in PayloadsOf(completed))
    requires forall call | call in IssuedCalls(turns) :: call.callId in used
    requires forall call | call in completed :: call.callId !in used
    requires forall j, k :: 0 <= j < k < |completed| ==> completed[j].callId != completed[k].callId
    requires other.callId == completed[i].callId
    ensures other == PayloadsOf(completed)[i]
  {
    assert completed[i] in completed;
    var j :| 0 <= j < |completed| && PayloadsOf(completed)[j] == other;
    assert i == j;
  }

  /** A pass that goes on adds one answered turn of the calls that were streamed. */
  lemma IterateAddsTurn(config: Config, s: LoopState, script: TurnScript)
    requires script.submission.Answered? && Iterate(config, s, script).1.None?
    ensures exists turn: Turn ::
              && turn.Answered() && turn.calls == PayloadsOf(CallsServed(config, script))
              && Iterate(config, s, script).0.history == s.history + turn.Messages()
  {
    var collected := Collect(config.parse, NOTHING_COLLECTED, script.submission.events);
    var sent := Submitted(config, s);
    var received := Received(sent, collected, script.submission.outcome);
    if collected.completed == [] {
      var turn := Turn(collected.text, [], []);
      assert turn.Messages() == if collected.text.Some? then [Message(Assistant, Text(collected.text.value))] else [];
      assert s.history + [] == s.history;
      assert turn.Answered() && turn.calls == PayloadsOf([]);
    } else {
      var b := ServeCalls(config, FreshBatch(received.journal), collected.completed, script.calls);
      var turn := Turn(collected.text, PayloadsOf(collected.completed), b.results);
      BatchAnswers(config, received.journal, collected.text, collected.completed, script.calls);
      ServedHistory(sent, collected, script.submission.outcome, b);
      assert turn.Answered();
    }
  }

  // ------------------------------------------------------------------
  // Every request
  // ------------------------------------------------------------------

  /** The streams of a run are well formed, and open tool blocks under ids not used before. */
  predicate FreshStreams(exchanges: seq<Exchange>, used: set<string>)
    decreases |exchanges|
  {
    exchanges != [] ==>
      if exchanges[0].Streamed?
      then WellFormed(exchanges[0].stream, {}, used)
          && FreshStreams(exchanges[1..], UsedAfter(exchanges[0].stream, used))
      else FreshStreams(exchanges[1..], used)
  }

  /** The transcript is these answered turns, and their calls are the ones streamed so far. */
  ghost predicate Recounts(config: Config, history: seq<Message>, turns: seq<Turn>, streamed: seq<ToolCallRequest>) {
    && history == Flatten(turns) && IssuedCalls(turns) == PayloadsOf(streamed) && Reparse(config.parse, streamed)
  }

  /** The request composes a transcript of answered turns, and on the wire it carries exactly
      the calls streamed so far, as issued. */
  ghost predicate AsIssued(config: Config, sent: Sent) {
    && (exists turns: seq<Turn> ::
          sent.request == Compose(config, Flatten(turns)) && (forall turn | turn in turns :: turn.Answered())
          && IssuedCalls(turns) == PayloadsOf(sent.streamed))
    && UsesOnWire(WireFor(config, sent)) == IssuedUses(config.parse, PayloadsOf(sent.streamed))
    && Paired(WireFor(config, sent))
  }

  function WireFor(config: Config, sent: Sent): seq<WireMessage> {
    Convert(config.parse, sent.registry, sent.request).wire
  }

  /** The block is the call the model streamed; arguments that did not parse go out as null. */
  predicate UsesAsStreamed(use: WireBlock, call: ToolCallRequest) {
    && use.ToolUseBlock? && use.id == call.callId && use.name == call.capabilityName
    && use.input == if call.malformed then JSON_NULL else call.arguments
  }

  /** The request's tool_use blocks are the calls streamed so far, one for one and in order. */
  ghost predicate ReplaysTheStream(config: Config, sent: Sent) {
    var uses := UsesOnWire(WireFor(config, sent));
    |uses| == |sent.streamed| && forall k :: 0 <= k < |uses| ==> UsesAsStreamed(uses[k], sent.streamed[k])
  }

  /** Every tool_use input of the request is an object, as the provider demands, exactly when
      every call streamed so far had arguments that parse to one. */
  ghost predicate ObjectsExactly(config: Config, sent: Sent) {
    (forall use | use in UsesOnWire(WireFor(config, sent)) :: use.ToolUseBlock? && use.input.keys.Some?)
    <==> (forall call | call in sent.streamed :: !call.malformed && call.arguments.keys.Some?)
  }

  lemma KnownIsIssued(config: Config, used: set<string>, turns: seq<Turn>, sent: Sent)
    requires Knows(config.parse, sent.registry, used, turns) && sent.request == Compose(config, Flatten(turns))
    requires IssuedCalls(turns) == PayloadsOf(sent.streamed)
    ensures AsIssued(config, sent)
  {
    LoopTranscriptReplaysCalls(config.parse, sent.registry, config.prefix, config.task, turns);
    assert Compose(config, Flatten(turns))
        == [Message(System, Text(config.prefix)), Message(User, Text(config.task))] + Flatten(turns);
  }

  /** A malformed call is recorded with the arguments null, and goes out so. */
  lemma UsesAreObjectsExactly(config: Config, sent: Sent)
    requires AsIssued(config, sent) && Reparse(config.parse, sent.streamed)
    requires config.parse(JSON_NULL.text) == Some(JSON_NULL)
    ensures ObjectsExactly(config, sent) && ReplaysTheStream(config, sent)
  {
    var uses, calls := UsesOnWire(WireFor(config, sent)), sent.streamed;
    forall i | 0 <= i < |calls|
      ensures uses[i] in uses && uses[i].ToolUseBlock? && calls[i] in calls
      ensures UsesAsStreamed(uses[i], calls[i])
      ensures uses[i].input.keys.Some? <==> !calls[i].malformed && calls[i].arguments.keys.Some?
    {
      assert calls[i] in calls && uses[i] == IssuedUse(config.parse, PayloadsOf(calls)[i]);
    }
  }

  /** One exchange that goes on keeps the registry faithful to the longer transcript. */
  lemma ExchangeKnows(
    config: Config, registry: Registry, used: set<string>, s: LoopState, turns: seq<Turn>,
    streamed: seq<ToolCallRequest>, exchange: Exchange)
    returns (longer: seq<Turn>)
    requires config.parse("") == None && RoundTrips(config.parse)
    requires Recounts(config, s.history, turns, streamed) && Knows(config.parse, registry, used, turns)
    requires exchange.Streamed? && WellFormed(exchange.stream, {}, used)
    requires var seeded := Convert(config.parse, registry, Compose(config, s.history)).registry;
             Iterate(config, s, ScriptOf(config.parse, seeded, exchange)).1.None?
    ensures var seeded := Convert(config.parse, registry, Compose(config, s.history)).registry;
            var script := ScriptOf(config.parse, seeded, exchange);
            && Recounts(config, Iterate(config, s, script).0.history, longer, streamed + CallsServed(config, script))
            && Knows(config.parse, RegistryAfter(config.parse, seeded, exchange), UsedAfter(exchange.stream, used),
               longer)
  {
    var seeded := Convert(config.parse, registry, Compose(config, s.history)).registry;
    var script := ScriptOf(config.parse, seeded, exchange);
    SeedingKnows(config, registry, used, turns);
    StreamIsLearned(config.parse, seeded, used, exchange.stream);
    IterateAddsTurn(config, s, script);
    var turn: Turn :| turn.Answered() && turn.calls == PayloadsOf(CallsServed(config, script))
                      && Iterate(config, s, script).0.history == s.history + turn.Messages();
    longer := turns + [turn];
    TurnIsRecounted(config, s.history, turns, streamed, turn, CallsServed(config, script));
    LearnedIsKnown(config.parse, seeded, used, RegistryAfter(config.parse, seeded, exchange),
                   UsedAfter(exchange.stream, used), turns, turn, CallsServed(config, script));
  }

  lemma TurnIsRecounted(
    config: Config, history: seq<Message>, turns: seq<Turn>, streamed: seq<ToolCallRequest>, turn: Turn,
    calls: seq<ToolCallRequest>)
    requires Recounts(config, history, turns, streamed)
    requires turn.calls == PayloadsOf(calls) && Reparse(config.parse, calls)
    ensures Recounts(config, history + turn.Messages(), turns + [turn], streamed + calls)
  {
    FlattenAppend(turns, turn);
    IssuedCallsAppend(turns, turn);
    PayloadsAppend(streamed, calls);
  }

  lemma PayloadsAppend(a: seq<ToolCallRequest>, b: seq<ToolCallRequest>)
    ensures PayloadsOf(a + b) == PayloadsOf(a) + PayloadsOf(b)
  {
  }

  lemma UnansweredEnds(config: Config, s: LoopState, script: TurnScript)
    requires !script.submission.Answered?
    ensures Iterate(config, s, script).1.Some?
  {
  }

  /** What the JSON parser must do: reject the empty text, read null, and read back what it printed. */
  ghost predicate ReadsJson(parse: JsonParser) {
    parse("") == None && parse(JSON_NULL.text) == Some(JSON_NULL) && RoundTrips(parse)
  }

  /** What holds of each request of a run. */
  ghost predicate AllFaithful(config: Config, sent: seq<Sent>) {
    forall one | one in sent :: AsIssued(config, one) && ReplaysTheStream(config, one) && ObjectsExactly(config, one)
  }

  lemma RequestIsFaithful(
    config: Config, used: set<string>, s: LoopState, turns: seq<Turn>, registry: Registry,
    streamed: seq<ToolCallRequest>, next: LoopState)
    requires ReadsJson(config.parse)
    requires Recounts(config, s.history, turns, streamed) && Knows(config.parse, registry, used, turns)
    ensures AllFaithful(config, SentBy(config, registry, s, streamed, next))
  {
    var sent := Sent(registry, Compose(config, s.history), streamed);
    KnownIsIssued(config, used, turns, sent);
    UsesAreObjectsExactly(config, sent);
  }

  lemma {:induction false} ConversationIsFaithful(
    config: Config, registry: Registry, used: set<string>, s: LoopState, turns: seq<Turn>,
    streamed: seq<ToolCallRequest>, exchanges: seq<Exchange>)
    requires ReadsJson(config.parse) && FreshStreams(exchanges, used)
    requires Recounts(config, s.history, turns, streamed) && Knows(config.parse, registry, used, turns)
    ensures AllFaithful(config, Converse(config, registry, s, streamed, exchanges).sent)
    decreases |exchanges|
  {
    if exchanges != [] {
      var seeded := Convert(config.parse, registry, Compose(config, s.history)).registry;
      var script := ScriptOf(config.parse, seeded, exchanges[0]);
      var (next, ending) := Iterate(config, s, script);
      RequestIsFaithful(config, used, s, turns, registry, streamed, next);
      if ending.None? {
        if !exchanges[0].Streamed? { UnansweredEnds(config, s, script); }
        var longer := ExchangeKnows(config, registry, used, s, turns, streamed, exchanges[0]);
        ConversationIsFaithful(config, RegistryAfter(config.parse, seeded, exchanges[0]),
                               UsedAfter(exchanges[0].stream, used), next, longer,
                               streamed + CallsServed(config, script), exchanges[1..]);
      }
    }
  }

  /** A run with one fresh adapter, over streams that open tool blocks under unused ids:
      every request it submits carries, as its tool_use blocks, exactly the calls the model
      streamed so far, in order, under the names and arguments they were issued with; and
      all of them have objects as inputs exactly when none of those calls was malformed or
      parsed to anything but an object. */
  lemma EveryRequestOfARunIsFaithful(config: Config, journal: Journal, exchanges: seq<Exchange>)
    requires ReadsJson(config.parse) && FreshStreams(exchanges, {})
    ensures var talk := Converse(config, map[], InitialState(journal), [], exchanges);
            && Run(config, journal, talk.scripts).0.requests == RequestsOf(talk.sent)
            && AllFaithful(config, talk.sent)
  {
    var s := InitialState(journal);
    ConverseIsTheLoop(config, map[], s, [], exchanges);
    assert Flatten([]) == [] && IssuedCalls([]) == [] && PayloadsOf([]) == [];
    assert s.requests + RequestsOf(Converse(config, map[], s, [], exchanges).sent)
        == RequestsOf(Converse(config, map[], s, [], exchanges).sent);
    ConversationIsFaithful(config, map[], {}, s, [], [], exchanges);
  }
}
