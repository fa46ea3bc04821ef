/** What the wire conversation of a transcript promises: no result is lost, moved
    or orphaned, and for the loop's own transcripts every tool_use is the call the
    model issued. */
module WireConversation {
  import opened Wrappers
  import opened Transcript
  import opened AnthropicAdapter
  import opened WireFilters

  function AllResults(messages: seq<Message>): seq<ToolResultPayload> {
    if messages == [] then []
    else (if IsResult(messages[0]) then [messages[0].content.result] else []) + AllResults(messages[1..])
  }

  /** An assistant message whose tool_use blocks are answered by the results of the
      user message after it, one for one and in order. */
  ghost predicate Answers(use: WireMessage, result: WireMessage) {
    && use.role == WireAssistant && result.role == WireUser
    && |UsesIn(use.content)| == |ResultsIn(result.content)|
    && (forall k :: 0 <= k < |UsesIn(use.content)| ==>
          UsesIn(use.content)[k].ToolUseBlock? && ResultsIn(result.content)[k].ToolResultBlock?
          && UsesIn(use.content)[k].id == ResultsIn(result.content)[k].toolUseId)
  }

  /** Every result directly follows its tool_use and every tool_use is directly answered. */
  ghost predicate Paired(wire: seq<WireMessage>) {
    && (forall i :: 0 <= i < |wire| && ResultsIn(wire[i].content) != [] ==> i > 0 && Answers(wire[i - 1], wire[i]))
    && (forall i :: 0 <= i < |wire| && UsesIn(wire[i].content) != [] ==>
          i + 1 < |wire| && Answers(wire[i], wire[i + 1]))
  }

  // ------------------------------------------------------------------
  // One turn on the wire
  // ------------------------------------------------------------------

  lemma AssistantContent(registry: Registry, text: Option<string>, results: seq<ToolResultPayload>)
    ensures var spoken := if text.Some? then [TextBlock(text.value)] else [];
            var content := ReplayedThinking(registry, results) + spoken + ToolUses(registry, results);
            UsesIn(content) == ToolUses(registry, results) && ResultsIn(content) == []
  {
    var spoken := if text.Some? then [TextBlock(text.value)] else [];
    ReplayedThinkingHasNoTools(registry, results);
    FiltersAppend(ReplayedThinking(registry, results), spoken);
    FiltersAppend(ReplayedThinking(registry, results) + spoken, ToolUses(registry, results));
    ToolUsesAreUses(registry, results);
    assert UsesIn(spoken) == [] == ResultsIn(spoken);
  }

  lemma PairIsPaired(use: WireMessage, answer: WireMessage)
    requires Answers(use, answer) && ResultsIn(use.content) == [] && UsesIn(answer.content) == []
    ensures Paired([use, answer])
    ensures UsesOnWire([use, answer]) == UsesIn(use.content)
            && ResultsOnWire([use, answer]) == ResultsIn(answer.content)
  {
    assert [use, answer] == [use] + [answer];
    WireOf(use);
    WireOf(answer);
    WireFiltersAppend([use], [answer]);
  }

  lemma PlainMessageIsPaired(message: WireMessage)
    requires UsesIn(message.content) == [] == ResultsIn(message.content)
    ensures Paired([message]) && UsesOnWire([message]) == [] == ResultsOnWire([message])
  {
    WireOf(message);
  }

  lemma TurnIsPaired(registry: Registry, text: Option<string>, results: seq<ToolResultPayload>)
    ensures var wire := TurnMessages(registry, text, results);
            && Paired(wire)
            && UsesOnWire(wire) == ToolUses(registry, results) && ResultsOnWire(wire) == ResultBlocks(results)
  {
    AssistantContent(registry, text, results);
    ToolUsesAreUses(registry, results);
    var spoken := if text.Some? then [TextBlock(text.value)] else [];
    var use := WireMessage(WireAssistant, ReplayedThinking(registry, results) + spoken + ToolUses(registry, results));
    if results == [] {
      PlainMessageIsPaired(use);
    } else {
      var answer := WireMessage(WireUser, ResultBlocks(results));
      assert use.content != [] by {
        assert use.content[|use.content| - 1] == ToolUses(registry, results)[|results| - 1];
      }
      assert TurnMessages(registry, text, results) == [use, answer];
      UsesAnswered(registry, results, use, answer);
      PairIsPaired(use, answer);
    }
  }

  lemma UsesAnswered(registry: Registry, results: seq<ToolResultPayload>, use: WireMessage, answer: WireMessage)
    requires use.role == WireAssistant && answer.role == WireUser
    requires UsesIn(use.content) == ToolUses(registry, results) && ResultsIn(answer.content) == ResultBlocks(results)
    ensures Answers(use, answer)
  {
    forall k | 0 <= k < |results|
      ensures UsesIn(use.content)[k].ToolUseBlock? && ResultsIn(answer.content)[k].ToolResultBlock?
              && UsesIn(use.content)[k].id == ResultsIn(answer.content)[k].toolUseId
    {
      assert UsesIn(use.content)[k] == ToolUseFor(registry, results[k]);
      assert ResultsIn(answer.content)[k] == ResultBlock(results[k]);
    }
  }

  lemma WireOf(message: WireMessage)
    ensures UsesOnWire([message]) == UsesIn(message.content) && ResultsOnWire([message]) == ResultsIn(message.content)
  {
    assert [message][1..] == [];
  }

  lemma PairedAppend(a: seq<WireMessage>, b: seq<WireMessage>)
    requires Paired(a) && Paired(b)
    ensures Paired(a + b)
  {
    forall i | 0 <= i < |a + b| && ResultsIn((a + b)[i].content) != []
      ensures i > 0 && Answers((a + b)[i - 1], (a + b)[i])
    {
      if i < |a| {
        assert Answers(a[i - 1], a[i]);
      } else {
        assert Answers(b[i - |a| - 1], b[i - |a|]);
      }
    }
    forall i | 0 <= i < |a + b| && UsesIn((a + b)[i].content) != []
      ensures i + 1 < |a + b| && Answers((a + b)[i], (a + b)[i + 1])
    {
      if i < |a| {
        assert Answers(a[i], a[i + 1]);
      } else {
        assert Answers(b[i - |a|], b[i - |a| + 1]);
      }
    }
  }

  // ------------------------------------------------------------------
  // Any message list
  // ------------------------------------------------------------------

  lemma {:induction false} AllResultsAppend(a: seq<Message>, b: seq<Message>)
    ensures AllResults(a + b) == AllResults(a) + AllResults(b)
  {
    if a == [] {
      assert a + b == b;
    } else {
      assert (a + b)[0] == a[0] && (a + b)[1..] == a[1..] + b;
      AllResultsAppend(a[1..], b);
      AppendInFront(if IsResult(a[0]) then [a[0].content.result] else [], AllResults(a[1..]), AllResults(b));
    }
  }

  lemma {:induction false} LeadingResultsAreResults(messages: seq<Message>)
    ensures AllResults(messages[..|LeadingResults(messages)|]) == LeadingResults(messages)
  {
    if messages != [] && IsResult(messages[0]) {
      LeadingResultsAreResults(messages[1..]);
      var n := |LeadingResults(messages[1..])|;
      assert messages[..n + 1][1..] == messages[1..][..n];
    }
  }

  /** One step emits a paired piece of wire holding the results it took, in order. */
  lemma StepIsPaired(parse: JsonParser, registry: Registry, messages: seq<Message>)
    requires messages != []
    ensures var step := NextStep(parse, registry, messages);
            CarriesBlocks(step.wire, messages[..step.taken])
  {
    match messages[0]
    case Message(User, Text(text)) =>
      UserTextIsPaired(text);
      OneMessageNoResult(messages);
    case Message(Assistant, Text(text)) =>
      AssistantStepIsPaired(registry, text, messages);
    case Message(Tool, ToolResult(_)) =>
      TurnIsPaired(registry, None, LeadingResults(messages));
      LeadingResultsAreResults(messages);
    case _ =>
      OneMessageNoResult(messages);
  }

  lemma OneMessageNoResult(messages: seq<Message>)
    requires messages != [] && !IsResult(messages[0])
    ensures AllResults(messages[..1]) == [] && ResultBlocks([]) == []
  {
    assert messages[..1][1..] == [];
  }

  lemma UserTextIsPaired(text: string)
    ensures var wire := [WireMessage(WireUser, [TextBlock(text)])]; Paired(wire) && ResultsOnWire(wire) == []
  {
    assert [TextBlock(text)][1..] == [];
    PlainMessageIsPaired(WireMessage(WireUser, [TextBlock(text)]));
  }

  lemma AssistantStepIsPaired(registry: Registry, text: string, messages: seq<Message>)
    requires messages != [] && messages[0] == Message(Assistant, Text(text))
    ensures var results := LeadingResults(messages[1..]);
            CarriesBlocks(TurnMessages(registry, Some(text), results), messages[..1 + |results|])
  {
    var results := LeadingResults(messages[1..]);
    TurnIsPaired(registry, Some(text), results);
    LeadingResultsAreResults(messages[1..]);
    assert messages[..1 + |results|][1..] == messages[1..][..|results|];
  }

  /** The block tells a result to the model: whose it is, what it says, and whether it failed. */
  predicate TellsResult(block: WireBlock, result: ToolResultPayload) {
    && block.ToolResultBlock? && block.toolUseId == result.callId && block.content == result.content
    && block.isError == result.isError
  }

  /** Every result goes out once, in order and as it is, in pairs. */
  ghost predicate Carries(wire: seq<WireMessage>, messages: seq<Message>) {
    && Paired(wire) && |ResultsOnWire(wire)| == |AllResults(messages)|
    && forall k :: 0 <= k < |AllResults(messages)| ==> TellsResult(ResultsOnWire(wire)[k], AllResults(messages)[k])
  }

  ghost predicate CarriesBlocks(wire: seq<WireMessage>, messages: seq<Message>) {
    Paired(wire) && ResultsOnWire(wire) == ResultBlocks(AllResults(messages))
  }

  lemma ResultBlocksAppend(a: seq<ToolResultPayload>, b: seq<ToolResultPayload>)
    ensures ResultBlocks(a + b) == ResultBlocks(a) + ResultBlocks(b)
  {
  }

  lemma CarriesAppend(a: seq<WireMessage>, b: seq<WireMessage>, taken: seq<Message>, rest: seq<Message>)
    requires CarriesBlocks(a, taken) && CarriesBlocks(b, rest)
    ensures CarriesBlocks(a + b, taken + rest)
  {
    PairedAppend(a, b);
    WireFiltersAppend(a, b);
    AllResultsAppend(taken, rest);
    ResultBlocksAppend(AllResults(taken), AllResults(rest));
  }

  lemma {:induction false} ConversionCarriesBlocks(parse: JsonParser, registry: Registry, messages: seq<Message>)
    ensures CarriesBlocks(Convert(parse, registry, messages).wire, messages)
    decreases |messages|
  {
    if messages != [] {
      var step := NextStep(parse, registry, messages);
      var rest := messages[step.taken..];
      StepIsPaired(parse, registry, messages);
      ConversionCarriesBlocks(parse, step.registry, rest);
      CarriesAppend(step.wire, Convert(parse, step.registry, rest).wire, messages[..step.taken], rest);
      assert messages[..step.taken] + rest == messages;
    }
  }

  /** Converting any message list, from any registry, puts every tool result on the
      wire exactly once, in order and as it is, and pairs every result with its tool_use. */
  lemma ConversionPairsEveryResult(parse: JsonParser, registry: Registry, messages: seq<Message>)
    ensures Carries(Convert(parse, registry, messages).wire, messages)
  {
    ConversionCarriesBlocks(parse, registry, messages);
  }

  // ------------------------------------------------------------------
  // The loop's transcripts
  // ------------------------------------------------------------------

  function IssuedCalls(turns: seq<Turn>): seq<ToolCallPayload> {
    if turns == [] then [] else turns[0].calls + IssuedCalls(turns[1..])
  }

  /** The tool_use block a call should appear as. */
  function IssuedUse(parse: JsonParser, call: ToolCallPayload): WireBlock {
    ToolUseBlock(call.callId, call.capabilityName, InputOf(parse, call.arguments))
  }

  function IssuedUses(parse: JsonParser, calls: seq<ToolCallPayload>): (blocks: seq<WireBlock>)
    ensures |blocks| == |calls| && forall i :: 0 <= i < |calls| ==> blocks[i] == IssuedUse(parse, calls[i])
  {
    seq(|calls|, i requires 0 <= i < |calls| => IssuedUse(parse, calls[i]))
  }

  /** The registry tells of these calls nothing but what was issued. */
  ghost predicate Faithful(parse: JsonParser, registry: Registry, calls: seq<ToolCallPayload>) {
    forall call | call in calls && call.callId in registry ::
      registry[call.callId].name == call.capabilityName && registry[call.callId].input == InputOf(parse, call.arguments)
  }

  /** No call id is used for two different calls. */
  ghost predicate DistinctCalls(calls: seq<ToolCallPayload>) {
    forall a, b | a in calls && b in calls :: a.callId == b.callId ==> a == b
  }

  lemma {:induction false} SeedingIsFaithful(
    parse: JsonParser, registry: Registry, calls: seq<ToolCallPayload>, all: seq<ToolCallPayload>)
    requires DistinctCalls(all) && Faithful(parse, registry, all)
    requires forall call | call in calls :: call in all
    ensures var seeded := SeededAll(parse, registry, calls);
            && Faithful(parse, seeded, all) && registry.Keys <= seeded.Keys
            && forall call | call in calls :: call.callId in seeded
    decreases |calls|
  {
    if calls != [] {
      SeedingIsFaithful(parse, Seeded(parse, registry, calls[0]), calls[1..], all);
    }
  }

  lemma {:induction false} SeededAllAppend(
    parse: JsonParser, registry: Registry, a: seq<ToolCallPayload>, b: seq<ToolCallPayload>)
    ensures SeededAll(parse, registry, a + b) == SeededAll(parse, SeededAll(parse, registry, a), b)
    decreases |a|
  {
    if a == [] {
      assert a + b == b;
    } else {
      assert (a + b)[0] == a[0] && (a + b)[1..] == a[1..] + b;
      SeededAllAppend(parse, Seeded(parse, registry, a[0]), a[1..], b);
    }
  }

  predicate StartsWithResult(messages: seq<Message>) {
    messages != [] && IsResult(messages[0])
  }

  lemma {:induction false} LeadingResultsOfTurn(results: seq<ToolResultPayload>, rest: seq<Message>)
    requires !StartsWithResult(rest)
    ensures LeadingResults(ResultMessages(results) + rest) == results
  {
    var messages := ResultMessages(results) + rest;
    if results == [] {
      assert messages == rest;
    } else {
      assert messages[1..] == ResultMessages(results[1..]) + rest;
      LeadingResultsOfTurn(results[1..], rest);
    }
  }

  lemma {:induction false} TurnsStartWithAssistant(turns: seq<Turn>)
    ensures !StartsWithResult(Flatten(turns))
  {
    if turns != [] {
      TurnsStartWithAssistant(turns[1..]);
      if turns[0].Messages() == [] {
        assert Flatten(turns) == Flatten(turns[1..]);
      }
    }
  }

  /** One step from the front of a list, when it is known. */
  lemma ConvertFront(parse: JsonParser, registry: Registry, head: seq<Message>, rest: seq<Message>)
    requires head != [] && NextStep(parse, registry, head + rest).taken == |head|
    ensures var step := NextStep(parse, registry, head + rest);
            UsesOnWire(Convert(parse, registry, head + rest).wire)
            == UsesOnWire(step.wire) + UsesOnWire(Convert(parse, step.registry, rest).wire)
  {
    var step := NextStep(parse, registry, head + rest);
    assert (head + rest)[|head|..] == rest;
    WireFiltersAppend(step.wire, Convert(parse, step.registry, rest).wire);
  }

  /** A text message not followed by results puts no tool_use on the wire. */
  lemma TextHasNoUses(parse: JsonParser, registry: Registry, role: Role, text: string, rest: seq<Message>)
    requires role != Tool && !StartsWithResult(rest)
    ensures UsesOnWire(Convert(parse, registry, [Message(role, Text(text))] + rest).wire)
            == UsesOnWire(Convert(parse, registry, rest).wire)
  {
    var messages := [Message(role, Text(text))] + rest;
    assert messages[1..] == rest;
    assert [TextBlock(text)][1..] == [];
    PlainMessageIsPaired(WireMessage(WireUser, [TextBlock(text)]));
    TurnIsPaired(registry, Some(text), []);
    ConvertFront(parse, registry, [Message(role, Text(text))], rest);
  }

  lemma TurnUses(parse: JsonParser, registry: Registry, turn: Turn)
    requires turn.Answered() && Faithful(parse, registry, turn.calls)
    requires forall call | call in turn.calls :: call.callId in registry
    ensures ToolUses(registry, turn.results) == IssuedUses(parse, turn.calls)
  {
    forall i | 0 <= i < |turn.calls| ensures ToolUseFor(registry, turn.results[i]) == IssuedUse(parse, turn.calls[i]) {
      assert turn.calls[i] in turn.calls;
    }
  }

  /** A turn's calls and their results put exactly those calls on the wire. */
  lemma CallsGoOutAsIssued(
    parse: JsonParser, registry: Registry, turn: Turn, rest: seq<Message>, all: seq<ToolCallPayload>)
    requires turn.calls != [] && turn.Answered() && !StartsWithResult(rest)
    requires DistinctCalls(all) && Faithful(parse, registry, all) && forall call | call in turn.calls :: call in all
    ensures var seeded := SeededAll(parse, registry, turn.calls);
            var served := [Message(Assistant, ToolCalls(turn.calls))] + (ResultMessages(turn.results) + rest);
            && Faithful(parse, seeded, all)
            && UsesOnWire(Convert(parse, registry, served).wire)
               == IssuedUses(parse, turn.calls) + UsesOnWire(Convert(parse, seeded, rest).wire)
  {
    var seeded := SeededAll(parse, registry, turn.calls);
    var results := ResultMessages(turn.results);
    SeedingIsFaithful(parse, registry, turn.calls, all);
    ConvertFront(parse, registry, [Message(Assistant, ToolCalls(turn.calls))], results + rest);
    LeadingResultsOfTurn(turn.results, rest);
    ConvertFront(parse, seeded, results, rest);
    TurnIsPaired(seeded, None, turn.results);
    TurnUses(parse, seeded, turn);
  }

  function ServedPart(turn: Turn, rest: seq<Message>): seq<Message> {
    if turn.calls == [] then rest
    else [Message(Assistant, ToolCalls(turn.calls))] + (ResultMessages(turn.results) + rest)
  }

  lemma TurnShape(turn: Turn, rest: seq<Message>)
    ensures turn.Messages() + rest
            == (if turn.text.Some? then [Message(Assistant, Text(turn.text.value))] else []) + ServedPart(turn, rest)
    ensures !StartsWithResult(rest) ==> !StartsWithResult(ServedPart(turn, rest))
  {
  }

  lemma TextGoesOut(parse: JsonParser, registry: Registry, turn: Turn, rest: seq<Message>)
    requires !StartsWithResult(rest)
    ensures UsesOnWire(Convert(parse, registry, turn.Messages() + rest).wire)
            == UsesOnWire(Convert(parse, registry, ServedPart(turn, rest)).wire)
  {
    TurnShape(turn, rest);
    if turn.text.Some? {
      TextHasNoUses(parse, registry, Assistant, turn.text.value, ServedPart(turn, rest));
    } else {
      assert [] + ServedPart(turn, rest) == ServedPart(turn, rest);
    }
  }

  /** One turn, with or without text and calls, in front of the rest. */
  lemma TurnGoesOutAsIssued(
    parse: JsonParser, registry: Registry, turn: Turn, rest: seq<Message>, all: seq<ToolCallPayload>)
    requires turn.Answered() && !StartsWithResult(rest)
    requires DistinctCalls(all) && Faithful(parse, registry, all) && forall call | call in turn.calls :: call in all
    ensures var seeded := SeededAll(parse, registry, turn.calls);
            && Faithful(parse, seeded, all)
            && UsesOnWire(Convert(parse, registry, turn.Messages() + rest).wire)
               == IssuedUses(parse, turn.calls) + UsesOnWire(Convert(parse, seeded, rest).wire)
  {
    TextGoesOut(parse, registry, turn, rest);
    if turn.calls == [] {
      assert IssuedUses(parse, turn.calls) == [];
    } else {
      CallsGoOutAsIssued(parse, registry, turn, rest, all);
    }
  }

  lemma IssuedUsesAppend(parse: JsonParser, a: seq<ToolCallPayload>, b: seq<ToolCallPayload>)
    ensures IssuedUses(parse, a + b) == IssuedUses(parse, a) + IssuedUses(parse, b)
  {
  }

  lemma {:induction false} TurnsGoOutAsIssued(
    parse: JsonParser, registry: Registry, turns: seq<Turn>, all: seq<ToolCallPayload>)
    requires forall turn: Turn | turn in turns :: turn.Answered()
    requires DistinctCalls(all) && Faithful(parse, registry, all)
    requires forall call | call in IssuedCalls(turns) :: call in all
    ensures UsesOnWire(Convert(parse, registry, Flatten(turns)).wire) == IssuedUses(parse, IssuedCalls(turns))
    decreases |turns|
  {
    if turns != [] {
      var turn, rest := turns[0], turns[1..];
      var seeded, more := SeededAll(parse, registry, turn.calls), Flatten(rest);
      TurnsStartWithAssistant(rest);
      TurnGoesOutAsIssued(parse, registry, turn, more, all) by {
        assert turn in turns && forall call | call in turn.calls :: call in IssuedCalls(turns);
      }
      TurnsGoOutAsIssued(parse, seeded, rest, all) by {
        assert forall call | call in IssuedCalls(rest) :: call in IssuedCalls(turns);
      }
      IssuedUsesAppend(parse, turn.calls, IssuedCalls(rest));
    }
  }

  /** The request the loop composes from an answered transcript carries, as its
      tool_use blocks, exactly the calls the model issued, in order, each with the
      name and the arguments it was issued with. A fresh adapter is faithful. */
  lemma LoopTranscriptReplaysCalls(
    parse: JsonParser, registry: Registry, prefix: string, task: string, turns: seq<Turn>)
    requires forall turn: Turn | turn in turns :: turn.Answered()
    requires DistinctCalls(IssuedCalls(turns)) && Faithful(parse, registry, IssuedCalls(turns))
    ensures var request := [Message(System, Text(prefix)), Message(User, Text(task))] + Flatten(turns);
            var wire := Convert(parse, registry, request).wire;
            UsesOnWire(wire) == IssuedUses(parse, IssuedCalls(turns)) && Paired(wire)
  {
    var system, user := Message(System, Text(prefix)), Message(User, Text(task));
    var request := [system, user] + Flatten(turns);
    ConversionPairsEveryResult(parse, registry, request);
    TurnsGoOutAsIssued(parse, registry, turns, IssuedCalls(turns));
    TurnsStartWithAssistant(turns);
    TextHasNoUses(parse, registry, User, task, Flatten(turns));
    TextHasNoUses(parse, registry, System, prefix, [user] + Flatten(turns));
    assert request == [system] + ([user] + Flatten(turns));
  }
}
