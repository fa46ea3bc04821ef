/** What a conversion replays for each tool result: the call it answers, and the thinking that
    led to it (crates/familiar-ai-agent/src/anthropic.rs, lines 177-349). */
module WireReplay {
  import opened Wrappers
  import opened Transcript
  import opened AnthropicAdapter
  import opened WireFilters
  import opened WireConversation

  // ------------------------------------------------------------------
  // Calls
  // ------------------------------------------------------------------

  /** The first call recorded under an id. */
  function FirstUnder(calls: seq<ToolCallPayload>, callId: string): Option<ToolCallPayload> {
    if calls == [] then None
    else if calls[0].callId == callId then Some(calls[0])
    else FirstUnder(calls[1..], callId)
  }

  /** The tool_use a result must follow: the call remembered under its id, or else the first one
      recorded under it, or else one made up from the result. */
  function UseDue(parse: JsonParser, known: Registry, recorded: seq<ToolCallPayload>, result: ToolResultPayload)
    : WireBlock
  {
    if result.callId in known
    then ToolUseBlock(result.callId, known[result.callId].name, known[result.callId].input)
    else
      match FirstUnder(recorded, result.callId)
      case Some(call) =>
        ToolUseBlock(result.callId, call.capabilityName,
                     if parse(call.arguments).Some? then parse(call.arguments).value else Json("{}", Some({})))
      case None => ToolUseBlock(result.callId, result.capabilityName, Json("{}", Some({})))
  }

  /** The tool_use of every result, message by message, without any grouping. */
  function UsesDue(parse: JsonParser, known: Registry, recorded: seq<ToolCallPayload>, messages: seq<Message>)
    : seq<WireBlock>
    decreases |messages|
  {
    if messages == [] then []
    else
      match messages[0]
      case Message(Assistant, ToolCalls(calls)) => UsesDue(parse, known, recorded + calls, messages[1..])
      case Message(Tool, ToolResult(result)) =>
        [UseDue(parse, known, recorded, result)] + UsesDue(parse, known, recorded, messages[1..])
      case _ => UsesDue(parse, known, recorded, messages[1..])
  }

  /** Seeding remembers the first call recorded under an id, and no thinking with it. */
  lemma {:induction false} SeedingRemembersFirst(
    parse: JsonParser, known: Registry, recorded: seq<ToolCallPayload>, result: ToolResultPayload)
    ensures var seeded := SeededAll(parse, known, recorded);
            && ToolUseFor(seeded, result) == UseDue(parse, known, recorded, result)
            && (result.callId in seeded ==>
                  seeded[result.callId].thinking
                  == if result.callId in known then known[result.callId].thinking else [])
            && (result.callId in known ==> result.callId in seeded)
    decreases |recorded|
  {
    if recorded != [] {
      SeedingRemembersFirst(parse, Seeded(parse, known, recorded[0]), recorded[1..], result);
    }
  }

  lemma ResultIsDue(
    parse: JsonParser, known: Registry, recorded: seq<ToolCallPayload>, messages: seq<Message>)
    requires messages != [] && IsResult(messages[0])
    ensures UsesDue(parse, known, recorded, messages)
            == [ToolUseFor(SeededAll(parse, known, recorded), messages[0].content.result)]
               + UsesDue(parse, known, recorded, messages[1..])
  {
    SeedingRemembersFirst(parse, known, recorded, messages[0].content.result);
  }

  lemma ToolUsesFront(registry: Registry, result: ToolResultPayload, rest: seq<ToolResultPayload>)
    ensures ToolUses(registry, [result] + rest) == [ToolUseFor(registry, result)] + ToolUses(registry, rest)
  {
  }

  lemma {:induction false} LeadingUses(
    parse: JsonParser, known: Registry, recorded: seq<ToolCallPayload>, messages: seq<Message>)
    ensures UsesDue(parse, known, recorded, messages)
            == ToolUses(SeededAll(parse, known, recorded), LeadingResults(messages))
               + UsesDue(parse, known, recorded, messages[|LeadingResults(messages)|..])
  {
    if LeadingResults(messages) == [] {
      assert messages[0..] == messages;
    } else {
      var result, rest := messages[0].content.result, LeadingResults(messages[1..]);
      LeadingUses(parse, known, recorded, messages[1..]);
      ResultIsDue(parse, known, recorded, messages);
      ToolUsesFront(SeededAll(parse, known, recorded), result, rest);
      assert messages[1..][|rest|..] == messages[1 + |rest|..];
    }
  }

  /** A step's wire and what follows it make up the uses due. */
  ghost predicate SplitsUses(
    parse: JsonParser, known: Registry, recorded: seq<ToolCallPayload>, more: seq<ToolCallPayload>,
    messages: seq<Message>, step: Step)
  {
    && step.registry == SeededAll(parse, known, more) && step.taken <= |messages|
    && UsesDue(parse, known, recorded, messages)
       == UsesOnWire(step.wire) + UsesDue(parse, known, more, messages[step.taken..])
  }

  lemma UserStepUses(
    parse: JsonParser, known: Registry, recorded: seq<ToolCallPayload>, messages: seq<Message>, text: string)
    requires messages != [] && messages[0] == Message(User, Text(text))
    ensures SplitsUses(parse, known, recorded, recorded, messages,
                       NextStep(parse, SeededAll(parse, known, recorded), messages))
  {
    WireOf(WireMessage(WireUser, [TextBlock(text)]));
    assert [TextBlock(text)][1..] == [];
  }

  lemma AssistantStepUses(
    parse: JsonParser, known: Registry, recorded: seq<ToolCallPayload>, messages: seq<Message>, text: string)
    requires messages != [] && messages[0] == Message(Assistant, Text(text))
    ensures SplitsUses(parse, known, recorded, recorded, messages,
                       NextStep(parse, SeededAll(parse, known, recorded), messages))
  {
    var results := LeadingResults(messages[1..]);
    TurnIsPaired(SeededAll(parse, known, recorded), Some(text), results);
    LeadingUses(parse, known, recorded, messages[1..]);
    assert messages[1..][|results|..] == messages[1 + |results|..];
  }

  lemma ResultStepUses(
    parse: JsonParser, known: Registry, recorded: seq<ToolCallPayload>, messages: seq<Message>)
    requires messages != [] && IsResult(messages[0])
    ensures SplitsUses(parse, known, recorded, recorded, messages,
                       NextStep(parse, SeededAll(parse, known, recorded), messages))
  {
    TurnIsPaired(SeededAll(parse, known, recorded), None, LeadingResults(messages));
    LeadingUses(parse, known, recorded, messages);
  }

  lemma CallsStepUses(
    parse: JsonParser, known: Registry, recorded: seq<ToolCallPayload>, messages: seq<Message>,
    calls: seq<ToolCallPayload>)
    requires messages != [] && messages[0] == Message(Assistant, ToolCalls(calls))
    ensures SplitsUses(parse, known, recorded, recorded + calls, messages,
                       NextStep(parse, SeededAll(parse, known, recorded), messages))
  {
    SeededAllAppend(parse, known, recorded, calls);
  }

  lemma StepUses(parse: JsonParser, known: Registry, recorded: seq<ToolCallPayload>, messages: seq<Message>)
    returns (more: seq<ToolCallPayload>)
    requires messages != []
    ensures SplitsUses(parse, known, recorded, more, messages,
                       NextStep(parse, SeededAll(parse, known, recorded), messages))
  {
    more := recorded;
    match messages[0]
    case Message(User, Text(text)) => UserStepUses(parse, known, recorded, messages, text);
    case Message(Assistant, Text(text)) => AssistantStepUses(parse, known, recorded, messages, text);
    case Message(Tool, ToolResult(_)) => ResultStepUses(parse, known, recorded, messages);
    case Message(Assistant, ToolCalls(calls)) =>
      more := recorded + calls;
      CallsStepUses(parse, known, recorded, messages, calls);
    case _ =>
  }

  lemma {:induction false} ConversionReplays(
    parse: JsonParser, known: Registry, recorded: seq<ToolCallPayload>, messages: seq<Message>)
    ensures UsesOnWire(Convert(parse, SeededAll(parse, known, recorded), messages).wire)
            == UsesDue(parse, known, recorded, messages)
    decreases |messages|
  {
    if messages != [] {
      var step := NextStep(parse, SeededAll(parse, known, recorded), messages);
      var more := StepUses(parse, known, recorded, messages);
      var rest := messages[step.taken..];
      ConversionReplays(parse, known, more, rest);
      WireFiltersAppend(step.wire, Convert(parse, step.registry, rest).wire);
    }
  }

  /** Converting any list, from any registry: the tool_use blocks are those due result by result. */
  lemma EveryResultFollowsItsCall(parse: JsonParser, known: Registry, messages: seq<Message>)
    ensures UsesOnWire(Convert(parse, known, messages).wire) == UsesDue(parse, known, [], messages)
  {
    ConversionReplays(parse, known, [], messages);
  }

  // ------------------------------------------------------------------
  // Thinking
  // ------------------------------------------------------------------

  /** The thinking blocks of a message, thinking and signature each in its place. */
  function ThinkingIn(blocks: seq<WireBlock>): seq<(string, string)> {
    if blocks == [] then []
    else
      (if blocks[0].ThinkingBlock? then [(blocks[0].thinking, blocks[0].signature)] else [])
      + ThinkingIn(blocks[1..])
  }

  /** The thinking remembered with these calls, call by call. */
  function RememberedWith(known: Registry, uses: seq<WireBlock>): seq<(string, string)> {
    if uses == [] then []
    else
      (if uses[0].ToolUseBlock? && uses[0].id in known then known[uses[0].id].thinking else [])
      + RememberedWith(known, uses[1..])
  }

  /** Where a block stands in an assistant message: thinking, then text, then calls. */
  function Rank(block: WireBlock): nat {
    match block
    case ThinkingBlock(_, _) => 0
    case TextBlock(_) => 1
    case ToolUseBlock(_, _, _) => 2
    case ToolResultBlock(_, _, _) => 3
  }

  ghost predicate InPlace(blocks: seq<WireBlock>) {
    forall i, j :: 0 <= i < j < |blocks| ==> Rank(blocks[i]) <= Rank(blocks[j])
  }

  /** The message thinks what was remembered with its calls, ahead of what it says and calls. */
  ghost predicate LedByThinking(known: Registry, message: WireMessage) {
    && ThinkingIn(message.content) == RememberedWith(known, UsesIn(message.content))
    && InPlace(message.content)
  }

  lemma {:induction false} ThinkingInAppend(a: seq<WireBlock>, b: seq<WireBlock>)
    ensures ThinkingIn(a + b) == ThinkingIn(a) + ThinkingIn(b)
  {
    if a == [] {
      assert a + b == b;
    } else {
      assert (a + b)[0] == a[0] && (a + b)[1..] == a[1..] + b;
      ThinkingInAppend(a[1..], b);
    }
  }

  lemma {:induction false} ThinkingBlocksThink(thinking: seq<(string, string)>)
    ensures ThinkingIn(ThinkingBlocks(thinking)) == thinking
    ensures forall block | block in ThinkingBlocks(thinking) :: block.ThinkingBlock?
  {
    if thinking != [] {
      ThinkingBlocksThink(thinking[1..]);
      assert ThinkingBlocks(thinking)[1..] == ThinkingBlocks(thinking[1..]);
      assert thinking == [thinking[0]] + thinking[1..];
    }
  }

  lemma {:induction false} NoThinking(blocks: seq<WireBlock>)
    requires forall block | block in blocks :: !block.ThinkingBlock?
    ensures ThinkingIn(blocks) == []
  {
    if blocks != [] {
      NoThinking(blocks[1..]);
    }
  }

  /** Seeding adds no thinking, so what is replayed is what was remembered before it. */
  lemma {:induction false} ReplaysWhatIsRemembered(
    parse: JsonParser, known: Registry, recorded: seq<ToolCallPayload>, results: seq<ToolResultPayload>)
    ensures var seeded := SeededAll(parse, known, recorded);
            var replayed := ReplayedThinking(seeded, results);
            && ThinkingIn(replayed) == RememberedWith(known, ToolUses(seeded, results))
            && forall block | block in replayed :: block.ThinkingBlock?
  {
    if results != [] {
      var seeded, callId := SeededAll(parse, known, recorded), results[0].callId;
      ReplaysWhatIsRemembered(parse, known, recorded, results[1..]);
      SeedingRemembersFirst(parse, known, recorded, results[0]);
      assert ToolUses(seeded, results)[1..] == ToolUses(seeded, results[1..]);
      var first := if callId in seeded then ThinkingBlocks(seeded[callId].thinking) else [];
      if callId in seeded {
        ThinkingBlocksThink(seeded[callId].thinking);
      }
      ThinkingInAppend(first, ReplayedThinking(seeded, results[1..]));
    }
  }

  /** What an assistant message holds for some results: thinking, text, calls. */
  function AssistantBlocks(registry: Registry, text: Option<string>, results: seq<ToolResultPayload>): seq<WireBlock> {
    ReplayedThinking(registry, results) + (if text.Some? then [TextBlock(text.value)] else [])
    + ToolUses(registry, results)
  }

  lemma AssistantIsLedByThinking(
    parse: JsonParser, known: Registry, recorded: seq<ToolCallPayload>, text: Option<string>,
    results: seq<ToolResultPayload>)
    ensures var blocks := AssistantBlocks(SeededAll(parse, known, recorded), text, results);
            LedByThinking(known, WireMessage(WireAssistant, blocks))
  {
    var seeded := SeededAll(parse, known, recorded);
    var spoken := if text.Some? then [TextBlock(text.value)] else [];
    var thinking, uses := ReplayedThinking(seeded, results), ToolUses(seeded, results);
    ReplaysWhatIsRemembered(parse, known, recorded, results);
    AssistantContent(seeded, text, results);
    NoThinking(spoken);
    NoThinking(uses);
    ThinkingInAppend(thinking + spoken, uses);
    ThinkingInAppend(thinking, spoken);
    PartsAreInPlace(thinking, spoken, uses);
  }

  lemma PartsAreInPlace(thinking: seq<WireBlock>, spoken: seq<WireBlock>, uses: seq<WireBlock>)
    requires forall block | block in thinking :: block.ThinkingBlock?
    requires forall block | block in spoken :: block.TextBlock?
    requires forall block | block in uses :: block.ToolUseBlock?
    ensures InPlace(thinking + spoken + uses)
  {
    var blocks := thinking + spoken + uses;
    forall i | 0 <= i < |blocks|
      ensures Rank(blocks[i]) == if i < |thinking| then 0 else if i < |thinking| + |spoken| then 1 else 2
    {
      if i < |thinking| {
        assert blocks[i] == thinking[i] && thinking[i] in thinking;
      } else if i < |thinking| + |spoken| {
        assert blocks[i] == spoken[i - |thinking|] && spoken[i - |thinking|] in spoken;
      } else {
        assert blocks[i] == uses[i - |thinking| - |spoken|] && uses[i - |thinking| - |spoken|] in uses;
      }
    }
  }

  lemma TurnIsLedByThinking(
    parse: JsonParser, known: Registry, recorded: seq<ToolCallPayload>, text: Option<string>,
    results: seq<ToolResultPayload>)
    ensures forall message | message in TurnMessages(SeededAll(parse, known, recorded), text, results) ::
              LedByThinking(known, message)
  {
    AssistantIsLedByThinking(parse, known, recorded, text, results);
    AnswerThinksNothing(known, results);
  }

  lemma AnswerThinksNothing(known: Registry, results: seq<ToolResultPayload>)
    ensures LedByThinking(known, WireMessage(WireUser, ResultBlocks(results)))
  {
    NoThinking(ResultBlocks(results));
    OnlyResults(ResultBlocks(results));
  }

  lemma StepIsLedByThinking(
    parse: JsonParser, known: Registry, recorded: seq<ToolCallPayload>, messages: seq<Message>)
    requires messages != []
    ensures forall message | message in NextStep(parse, SeededAll(parse, known, recorded), messages).wire ::
              LedByThinking(known, message)
  {
    match messages[0]
    case Message(User, Text(text)) =>
      var blocks := [TextBlock(text)];
      assert blocks[1..] == [];
      NoThinking(blocks);
      assert UsesIn(blocks) == [];
      assert LedByThinking(known, WireMessage(WireUser, blocks));
    case Message(Assistant, Text(text)) =>
      TurnIsLedByThinking(parse, known, recorded, Some(text), LeadingResults(messages[1..]));
    case Message(Tool, ToolResult(_)) =>
      TurnIsLedByThinking(parse, known, recorded, None, LeadingResults(messages));
    case _ =>
  }

  lemma {:induction false} ConversionLeadsWithThinking(
    parse: JsonParser, known: Registry, recorded: seq<ToolCallPayload>, messages: seq<Message>)
    ensures forall message | message in Convert(parse, SeededAll(parse, known, recorded), messages).wire ::
              LedByThinking(known, message)
    decreases |messages|
  {
    if messages != [] {
      var step := NextStep(parse, SeededAll(parse, known, recorded), messages);
      var more := StepUses(parse, known, recorded, messages);
      StepIsLedByThinking(parse, known, recorded, messages);
      ConversionLeadsWithThinking(parse, known, more, messages[step.taken..]);
    }
  }

  /** Converting any list, from any registry: every message replays the thinking that was
      remembered with its calls, ahead of its text and of the calls. */
  lemma ThinkingLeadsItsCalls(parse: JsonParser, known: Registry, messages: seq<Message>)
    ensures forall message | message in Convert(parse, known, messages).wire :: LedByThinking(known, message)
  {
    ConversionLeadsWithThinking(parse, known, [], messages);
  }

  // ------------------------------------------------------------------
  // A turn of the loop
  // ------------------------------------------------------------------

  /** The blocks of the assistant's messages, one after another. */
  function AssistantSide(wire: seq<WireMessage>): seq<WireBlock> {
    if wire == [] then []
    else (if wire[0].role == WireAssistant then wire[0].content else []) + AssistantSide(wire[1..])
  }

  lemma OneStep(parse: JsonParser, registry: Registry, messages: seq<Message>, head: seq<Message>, rest: seq<Message>)
    requires messages == head + rest && head != [] && NextStep(parse, registry, messages).taken == |head|
    ensures var step := NextStep(parse, registry, messages);
            Convert(parse, registry, messages).wire == step.wire + Convert(parse, step.registry, rest).wire
  {
    assert messages[|head|..] == rest;
  }

  lemma AnsweredMessages(registry: Registry, results: seq<ToolResultPayload>)
    requires results != []
    ensures TurnMessages(registry, None, results)
            == [WireMessage(WireAssistant, AssistantBlocks(registry, None, results)),
                WireMessage(WireUser, ResultBlocks(results))]
  {
    var blocks := AssistantBlocks(registry, None, results);
    assert blocks[|blocks| - 1] == ToolUses(registry, results)[|results| - 1];
  }

  lemma ResultsOnTheWire(parse: JsonParser, registry: Registry, results: seq<ToolResultPayload>)
    requires results != []
    ensures Convert(parse, registry, ResultMessages(results)).wire == TurnMessages(registry, None, results)
  {
    var messages := ResultMessages(results);
    assert messages + [] == messages;
    LeadingResultsOfTurn(results, []);
    OneStep(parse, registry, messages, messages, []);
  }

  lemma CallsOnWire(parse: JsonParser, known: Registry, turn: Turn)
    requires turn.Answered() && turn.calls != []
    ensures var seeded := SeededAll(parse, known, turn.calls);
            var served := [Message(Assistant, ToolCalls(turn.calls))] + ResultMessages(turn.results);
            Convert(parse, known, served).wire
            == [WireMessage(WireAssistant, AssistantBlocks(seeded, None, turn.results)),
                WireMessage(WireUser, ResultBlocks(turn.results))]
  {
    var seeded := SeededAll(parse, known, turn.calls);
    var issued, results := [Message(Assistant, ToolCalls(turn.calls))], ResultMessages(turn.results);
    OneStep(parse, known, issued + results, issued, results);
    ResultsOnTheWire(parse, seeded, turn.results);
    AnsweredMessages(seeded, turn.results);
  }

  lemma TextOnWire(parse: JsonParser, known: Registry, text: string, rest: seq<Message>)
    requires !StartsWithResult(rest)
    ensures Convert(parse, known, [Message(Assistant, Text(text))] + rest).wire
            == [WireMessage(WireAssistant, [TextBlock(text)])] + Convert(parse, known, rest).wire
  {
    var spoken := [Message(Assistant, Text(text))];
    assert (spoken + rest)[1..] == rest && LeadingResults(rest) == [];
    OneStep(parse, known, spoken + rest, spoken, rest);
    assert [] + [TextBlock(text)] + ToolUses(known, []) == [TextBlock(text)];
    assert TurnMessages(known, Some(text), []) == [WireMessage(WireAssistant, [TextBlock(text)])];
  }

  /** The loop records a turn's text before its calls, so the text goes out as a message of its
      own, ahead of the message with the thinking and the calls. */
  lemma TurnOnWire(parse: JsonParser, known: Registry, turn: Turn)
    requires turn.Answered() && turn.calls != []
    ensures var seeded := SeededAll(parse, known, turn.calls);
            Convert(parse, known, turn.Messages()).wire
            == (if turn.text.Some? then [WireMessage(WireAssistant, [TextBlock(turn.text.value)])] else [])
               + [WireMessage(WireAssistant, AssistantBlocks(seeded, None, turn.results)),
                  WireMessage(WireUser, ResultBlocks(turn.results))]
  {
    var served := [Message(Assistant, ToolCalls(turn.calls))] + ResultMessages(turn.results);
    CallsOnWire(parse, known, turn);
    if turn.text.Some? {
      TextOnWire(parse, known, turn.text.value, served);
      assert turn.Messages() == [Message(Assistant, Text(turn.text.value))] + served;
    } else {
      assert turn.Messages() == served;
    }
  }

  /** Over all that the assistant says in such a turn, the thinking stands first exactly when
      there is no text, or nothing was remembered to be replayed. */
  lemma ThinkingLeadsTheTurnExactly(parse: JsonParser, known: Registry, turn: Turn)
    requires turn.Answered() && turn.calls != []
    ensures var wire := Convert(parse, known, turn.Messages()).wire;
            InPlace(AssistantSide(wire)) <==> turn.text.None? || RememberedWith(known, UsesOnWire(wire)) == []
  {
    var seeded := SeededAll(parse, known, turn.calls);
    var spoken := if turn.text.Some? then [TextBlock(turn.text.value)] else [];
    TurnOnWire(parse, known, turn);
    SidesOfTurn(Convert(parse, known, turn.Messages()).wire, spoken, AssistantBlocks(seeded, None, turn.results),
                turn.results);
    UsesAndThinking(parse, known, turn.calls, turn.results);
    ThinkingFirstExactly(spoken, ReplayedThinking(seeded, turn.results), ToolUses(seeded, turn.results));
  }

  lemma NothingBetween<T>(a: seq<T>, b: seq<T>)
    ensures a + [] + b == a + b
  {
  }

  lemma WithoutText(registry: Registry, results: seq<ToolResultPayload>)
    ensures AssistantBlocks(registry, None, results)
            == ReplayedThinking(registry, results) + ToolUses(registry, results)
  {
    NothingBetween(ReplayedThinking(registry, results), ToolUses(registry, results));
  }

  lemma OnlyUsesAreUses(registry: Registry, results: seq<ToolResultPayload>)
    ensures UsesIn(ReplayedThinking(registry, results) + ToolUses(registry, results)) == ToolUses(registry, results)
  {
    var thinking, uses := ReplayedThinking(registry, results), ToolUses(registry, results);
    ReplayedThinkingHasNoTools(registry, results);
    ToolUsesAreUses(registry, results);
    FiltersAppend(thinking, uses);
    assert [] + uses == uses;
  }

  lemma UsesAndThinking(
    parse: JsonParser, known: Registry, recorded: seq<ToolCallPayload>, results: seq<ToolResultPayload>)
    ensures var seeded := SeededAll(parse, known, recorded);
            var blocks := AssistantBlocks(seeded, None, results);
            && blocks == ReplayedThinking(seeded, results) + ToolUses(seeded, results)
            && RememberedWith(known, UsesIn(blocks)) == ThinkingIn(ReplayedThinking(seeded, results))
            && forall block | block in ReplayedThinking(seeded, results) :: block.ThinkingBlock?
  {
    WithoutText(SeededAll(parse, known, recorded), results);
    OnlyUsesAreUses(SeededAll(parse, known, recorded), results);
    ReplaysWhatIsRemembered(parse, known, recorded, results);
  }

  lemma ThinkingFirstExactly(spoken: seq<WireBlock>, thinking: seq<WireBlock>, uses: seq<WireBlock>)
    requires forall block | block in thinking :: block.ThinkingBlock?
    requires forall block | block in spoken :: block.TextBlock?
    requires forall block | block in uses :: block.ToolUseBlock?
    ensures InPlace(spoken + (thinking + uses)) <==> spoken == [] || ThinkingIn(thinking) == []
  {
    var blocks := spoken + (thinking + uses);
    if thinking == [] {
      PartsAreInPlace(thinking, spoken, uses);
      assert blocks == thinking + spoken + uses;
    } else {
      assert thinking[0] in thinking;
      if spoken == [] {
        PartsAreInPlace(thinking, spoken, uses);
        assert blocks == thinking + spoken + uses;
      } else {
        assert spoken[0] in spoken && blocks[0] == spoken[0] && blocks[|spoken|] == thinking[0];
      }
    }
  }

  lemma SidesOfTurn(
    wire: seq<WireMessage>, spoken: seq<WireBlock>, blocks: seq<WireBlock>, results: seq<ToolResultPayload>)
    requires wire == (if spoken != [] then [WireMessage(WireAssistant, spoken)] else [])
                     + [WireMessage(WireAssistant, blocks), WireMessage(WireUser, ResultBlocks(results))]
    requires UsesIn(spoken) == []
    ensures AssistantSide(wire) == spoken + blocks && UsesOnWire(wire) == UsesIn(blocks)
  {
    var answer := [WireMessage(WireUser, ResultBlocks(results))];
    var called := [WireMessage(WireAssistant, blocks)] + answer;
    OnlyResults(ResultBlocks(results));
    assert answer[1..] == [] && called[1..] == answer;
    assert AssistantSide(answer) == [] && UsesOnWire(answer) == [];
    assert AssistantSide(called) == blocks + [] == blocks;
    assert UsesOnWire(called) == UsesIn(blocks) + [] == UsesIn(blocks);
    if spoken != [] {
      assert wire[1..] == called;
    } else {
      assert wire == called;
    }
  }

  // ------------------------------------------------------------------
  // System blocks
  // ------------------------------------------------------------------

  /** The system texts go out in order; the last, and only it, marks a prefix that may be cached. */
  lemma OnlyTheLastIsCached(system: seq<string>, ephemeral: bool)
    ensures var blocks := SystemBlocks(system, ephemeral);
            && |blocks| == |system| && (forall i :: 0 <= i < |blocks| ==> blocks[i].text == system[i])
            && forall i :: 0 <= i < |blocks| ==> (blocks[i].cached <==> ephemeral && i == |blocks| - 1)
  {
  }
}
