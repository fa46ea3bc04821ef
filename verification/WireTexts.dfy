/** What is said reaches the wire: every text of a message list, under its role and in order
    (crates/familiar-ai-agent/src/anthropic.rs, lines 177-349). The system texts become the
    system blocks; user and assistant texts become text blocks of messages under their role,
    also where an assistant's text and the calls it made share one message, and where results
    are gathered into the message after it. */
module WireTexts {
  import opened Wrappers
  import opened Transcript
  import opened AnthropicAdapter

  /** What the user and the assistant said, in order. */
  function Said(messages: seq<Message>): seq<(WireRole, string)> {
    if messages == [] then []
    else
      (match messages[0]
       case Message(User, Text(text)) => [(WireUser, text)]
       case Message(Assistant, Text(text)) => [(WireAssistant, text)]
       case _ => [])
      + Said(messages[1..])
  }

  function SystemTexts(messages: seq<Message>): seq<string> {
    if messages == [] then []
    else
      (match messages[0]
       case Message(System, Text(text)) => [text]
       case _ => [])
      + SystemTexts(messages[1..])
  }

  function TextsIn(role: WireRole, blocks: seq<WireBlock>): seq<(WireRole, string)> {
    if blocks == [] then []
    else (if blocks[0].TextBlock? then [(role, blocks[0].text)] else []) + TextsIn(role, blocks[1..])
  }

  function TextsOnWire(wire: seq<WireMessage>): seq<(WireRole, string)> {
    if wire == [] then [] else TextsIn(wire[0].role, wire[0].content) + TextsOnWire(wire[1..])
  }

  lemma {:induction false} TextsInAppend(role: WireRole, a: seq<WireBlock>, b: seq<WireBlock>)
    ensures TextsIn(role, a + b) == TextsIn(role, a) + TextsIn(role, b)
  {
    if a == [] {
      assert a + b == b;
    } else {
      assert (a + b)[1..] == a[1..] + b;
      TextsInAppend(role, a[1..], b);
    }
  }

  lemma {:induction false} TextsOnWireAppend(a: seq<WireMessage>, b: seq<WireMessage>)
    ensures TextsOnWire(a + b) == TextsOnWire(a) + TextsOnWire(b)
  {
    if a == [] {
      assert a + b == b;
    } else {
      assert (a + b)[0] == a[0] && (a + b)[1..] == a[1..] + b;
      TextsOnWireAppend(a[1..], b);
    }
  }

  lemma {:induction false} NoTexts(role: WireRole, blocks: seq<WireBlock>)
    requires forall block | block in blocks :: !block.TextBlock?
    ensures TextsIn(role, blocks) == []
  {
    if blocks != [] { NoTexts(role, blocks[1..]); }
  }

  lemma {:induction false} ThinkingIsNoText(thinking: seq<(string, string)>)
    ensures forall block | block in ThinkingBlocks(thinking) :: !block.TextBlock?
  {
    if thinking != [] { ThinkingIsNoText(thinking[1..]); }
  }

  lemma {:induction false} ReplayedThinkingIsNoText(registry: Registry, results: seq<ToolResultPayload>)
    ensures forall block | block in ReplayedThinking(registry, results) :: !block.TextBlock?
  {
    if results != [] {
      ReplayedThinkingIsNoText(registry, results[1..]);
      if results[0].callId in registry { ThinkingIsNoText(registry[results[0].callId].thinking); }
    }
  }

  /** One turn on the wire says its text once, as the assistant. */
  lemma TurnSaysItsText(registry: Registry, text: Option<string>, results: seq<ToolResultPayload>)
    ensures TextsOnWire(TurnMessages(registry, text, results))
            == if text.Some? then [(WireAssistant, text.value)] else []
  {
    var spoken := if text.Some? then [TextBlock(text.value)] else [];
    var thinking, uses := ReplayedThinking(registry, results), ToolUses(registry, results);
    var content := thinking + spoken + uses;
    AssistantSays(registry, text, results);
    NoTexts(WireUser, ResultBlocks(results));
    var assistant := if content != [] then [WireMessage(WireAssistant, content)] else [];
    var answer := if results != [] then [WireMessage(WireUser, ResultBlocks(results))] else [];
    TextsOnWireAppend(assistant, answer);
    assert content != [] ==> assistant[1..] == [];
    assert results != [] ==> answer[1..] == [];
    assert TurnMessages(registry, text, results) == assistant + answer;
  }

  lemma AssistantSays(registry: Registry, text: Option<string>, results: seq<ToolResultPayload>)
    ensures var spoken := if text.Some? then [TextBlock(text.value)] else [];
            TextsIn(WireAssistant, ReplayedThinking(registry, results) + spoken + ToolUses(registry, results))
            == if text.Some? then [(WireAssistant, text.value)] else []
  {
    var spoken := if text.Some? then [TextBlock(text.value)] else [];
    var thinking, uses := ReplayedThinking(registry, results), ToolUses(registry, results);
    TextsInAppend(WireAssistant, thinking + spoken, uses);
    TextsInAppend(WireAssistant, thinking, spoken);
    ReplayedThinkingIsNoText(registry, results);
    NoTexts(WireAssistant, thinking);
    NoTexts(WireAssistant, uses);
    assert text.Some? ==> spoken[1..] == [];
  }

  lemma {:induction false} ResultsSayNothing(messages: seq<Message>, n: nat)
    requires n <= |messages| && forall i :: 0 <= i < n ==> IsResult(messages[i])
    ensures Said(messages) == Said(messages[n..]) && SystemTexts(messages) == SystemTexts(messages[n..])
  {
    if n == 0 {
      assert messages[0..] == messages;
    } else {
      ResultsSayNothing(messages[1..], n - 1);
      assert messages[1..][n - 1..] == messages[n..];
    }
  }

  lemma {:induction false} LeadingAreResults(messages: seq<Message>)
    ensures forall i :: 0 <= i < |LeadingResults(messages)| ==> IsResult(messages[i])
  {
    if messages != [] && IsResult(messages[0]) {
      LeadingAreResults(messages[1..]);
      forall i | 0 <= i < |LeadingResults(messages)| ensures IsResult(messages[i]) {
        if i > 0 { assert IsResult(messages[1..][i - 1]); }
      }
    }
  }

  lemma UserSays(text: string)
    ensures TextsOnWire([WireMessage(WireUser, [TextBlock(text)])]) == [(WireUser, text)]
  {
    var blocks := [TextBlock(text)];
    var wire := [WireMessage(WireUser, blocks)];
    assert blocks[1..] == [] && wire[1..] == [];
    assert TextsIn(WireUser, blocks) == [(WireUser, text)];
    assert TextsOnWire(wire) == TextsIn(WireUser, blocks) + TextsOnWire(wire[1..]);
  }

  /** One step says what the messages it takes say. */
  lemma StepSays(parse: JsonParser, registry: Registry, messages: seq<Message>)
    requires messages != []
    ensures var step := NextStep(parse, registry, messages);
            && Said(messages) == TextsOnWire(step.wire) + Said(messages[step.taken..])
            && SystemTexts(messages) == step.system + SystemTexts(messages[step.taken..])
  {
    match messages[0]
    case Message(User, Text(text)) =>
      UserSays(text);
    case Message(Assistant, Text(text)) =>
      var n := |LeadingResults(messages[1..])|;
      TurnSaysItsText(registry, Some(text), LeadingResults(messages[1..]));
      LeadingAreResults(messages[1..]);
      ResultsSayNothing(messages[1..], n);
      assert messages[1..][n..] == messages[1 + n..];
    case Message(Tool, ToolResult(_)) =>
      TurnSaysItsText(registry, None, LeadingResults(messages));
      LeadingAreResults(messages);
      ResultsSayNothing(messages, |LeadingResults(messages)|);
    case _ =>
  }

  /** Converting any message list, from any registry, keeps everything that was said:
      each user and assistant text goes out once, under its role and in order, and the
      system texts become the system blocks, in order. */
  lemma {:induction false} ConversionKeepsEveryText(parse: JsonParser, registry: Registry, messages: seq<Message>)
    ensures TextsOnWire(Convert(parse, registry, messages).wire) == Said(messages)
    ensures Convert(parse, registry, messages).system == SystemTexts(messages)
    decreases |messages|
  {
    if messages != [] {
      var step := NextStep(parse, registry, messages);
      var rest := messages[step.taken..];
      StepSays(parse, registry, messages);
      ConversionKeepsEveryText(parse, step.registry, rest);
      TextsOnWireAppend(step.wire, Convert(parse, step.registry, rest).wire);
    }
  }
}
