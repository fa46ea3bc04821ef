/** The adapter that rebuilds a wire conversation from the loop's transcript
    (crates/familiar-ai-agent/src/anthropic.rs, lines 59-67 and 171-349). */
module AnthropicAdapter {
  import opened Wrappers
  import opened Transcript

  datatype WireBlock =
    | TextBlock(text: string)
    | ThinkingBlock(thinking: string, signature: string)
    | ToolUseBlock(id: string, name: string, input: Json)
    | ToolResultBlock(toolUseId: string, content: string, isError: bool)

  datatype WireRole = WireUser | WireAssistant

  datatype WireMessage = WireMessage(role: WireRole, content: seq<WireBlock>)

  datatype SystemBlock = SystemBlock(text: string, cached: bool)

  datatype Remembered = Remembered(name: string, input: Json, thinking: seq<(string, string)>)

  type Registry = map<string, Remembered>

  /** What a call's argument text means on the wire. */
  function InputOf(parse: JsonParser, arguments: string): Json {
    match parse(arguments)
    case Some(input) => input
    case None => JSON_EMPTY_OBJECT
  }

  /** Remembers a call unless its id is remembered already. */
  function Seeded(parse: JsonParser, registry: Registry, call: ToolCallPayload): Registry {
    if call.callId in registry then registry
    else registry[call.callId := Remembered(call.capabilityName, InputOf(parse, call.arguments), [])]
  }

  function SeededAll(parse: JsonParser, registry: Registry, calls: seq<ToolCallPayload>): Registry
    decreases |calls|
  {
    if calls == [] then registry else SeededAll(parse, Seeded(parse, registry, calls[0]), calls[1..])
  }

  predicate IsResult(message: Message) {
    message.role == Tool && message.content.ToolResult?
  }

  /** The contiguous run of tool results a list starts with. */
  function LeadingResults(messages: seq<Message>): (results: seq<ToolResultPayload>)
    ensures |results| <= |messages|
  {
    if messages == [] || !IsResult(messages[0]) then []
    else [messages[0].content.result] + LeadingResults(messages[1..])
  }

  function ThinkingBlocks(thinking: seq<(string, string)>): seq<WireBlock> {
    if thinking == [] then [] else [ThinkingBlock(thinking[0].0, thinking[0].1)] + ThinkingBlocks(thinking[1..])
  }

  function ReplayedThinking(registry: Registry, results: seq<ToolResultPayload>): seq<WireBlock> {
    if results == [] then []
    else
      var callId := results[0].callId;
      (if callId in registry then ThinkingBlocks(registry[callId].thinking) else [])
        + ReplayedThinking(registry, results[1..])
  }

  /** The tool_use block a result must follow: the remembered one, or one made up
      from the result itself. */
  function ToolUseFor(registry: Registry, result: ToolResultPayload): WireBlock {
    if result.callId in registry
    then ToolUseBlock(result.callId, registry[result.callId].name, registry[result.callId].input)
    else ToolUseBlock(result.callId, result.capabilityName, JSON_EMPTY_OBJECT)
  }

  function ToolUses(registry: Registry, results: seq<ToolResultPayload>): (blocks: seq<WireBlock>)
    ensures |blocks| == |results| && forall i :: 0 <= i < |results| ==> blocks[i] == ToolUseFor(registry, results[i])
  {
    seq(|results|, i requires 0 <= i < |results| => ToolUseFor(registry, results[i]))
  }

  function ResultBlock(result: ToolResultPayload): WireBlock {
    ToolResultBlock(result.callId, result.content, result.isError)
  }

  function ResultBlocks(results: seq<ToolResultPayload>): (blocks: seq<WireBlock>)
    ensures |blocks| == |results| && forall i :: 0 <= i < |results| ==> blocks[i] == ResultBlock(results[i])
  {
    seq(|results|, i requires 0 <= i < |results| => ResultBlock(results[i]))
  }

  /** The assistant turn and, when there are results, the one user turn answering it. */
  function TurnMessages(registry: Registry, text: Option<string>, results: seq<ToolResultPayload>): seq<WireMessage> {
    var spoken := if text.Some? then [TextBlock(text.value)] else [];
    var content := ReplayedThinking(registry, results) + spoken + ToolUses(registry, results);
    (if content != [] then [WireMessage(WireAssistant, content)] else [])
    + (if results != [] then [WireMessage(WireUser, ResultBlocks(results))] else [])
  }

  datatype Converted = Converted(system: seq<string>, wire: seq<WireMessage>, registry: Registry) {
    function After(system': seq<string>, wire': seq<WireMessage>): Converted {
      Converted(system' + system, wire' + wire, registry)
    }
  }

  /** One step of the conversion: how many messages it takes, and what it emits. */
  datatype Step = Step(taken: nat, system: seq<string>, wire: seq<WireMessage>, registry: Registry)

  function NextStep(parse: JsonParser, registry: Registry, messages: seq<Message>): (step: Step)
    requires messages != []
    ensures 0 < step.taken <= |messages|
  {
    match messages[0]
    case Message(System, Text(text)) => Step(1, [text], [], registry)
    case Message(User, Text(text)) => Step(1, [], [WireMessage(WireUser, [TextBlock(text)])], registry)
    case Message(Assistant, Text(text)) =>
      var results := LeadingResults(messages[1..]);
      Step(1 + |results|, [], TurnMessages(registry, Some(text), results), registry)
    case Message(Tool, ToolResult(_)) =>
      var results := LeadingResults(messages);
      Step(|results|, [], TurnMessages(registry, None, results), registry)
    case Message(Assistant, ToolCalls(calls)) => Step(1, [], [], SeededAll(parse, registry, calls))
    case _ => Step(1, [], [], registry)
  }

  /** The wire conversation of a message list. */
  function Convert(parse: JsonParser, registry: Registry, messages: seq<Message>): Converted
    decreases |messages|
  {
    if messages == [] then Converted([], [], registry)
    else
      var step := NextStep(parse, registry, messages);
      Convert(parse, step.registry, messages[step.taken..]).After(step.system, step.wire)
  }

  function Uncached(system: seq<string>): (blocks: seq<SystemBlock>)
    ensures |blocks| == |system| && forall i :: 0 <= i < |system| ==> blocks[i] == SystemBlock(system[i], false)
  {
    seq(|system|, i requires 0 <= i < |system| => SystemBlock(system[i], false))
  }

  /** The system blocks of a request; only the last one carries the cache marker. */
  function SystemBlocks(system: seq<string>, ephemeral: bool): seq<SystemBlock> {
    if ephemeral && system != []
    then Uncached(system[..|system| - 1]) + [SystemBlock(system[|system| - 1], true)]
    else Uncached(system)
  }

  lemma AfterAfter(
    c: Converted, system: seq<string>, wire: seq<WireMessage>, moreSystem: seq<string>, moreWire: seq<WireMessage>)
    ensures c.After(moreSystem, moreWire).After(system, wire) == c.After(system + moreSystem, wire + moreWire)
    ensures c.After([], []) == c
  {
  }

  lemma ConvertUnfold(parse: JsonParser, registry: Registry, messages: seq<Message>)
    requires messages != []
    ensures var step := NextStep(parse, registry, messages);
            Convert(parse, registry, messages)
            == Convert(parse, step.registry, messages[step.taken..]).After(step.system, step.wire)
  {
  }

  lemma ConvertEnds(
    parse: JsonParser, registry: Registry, messages: seq<Message>, system: seq<string>, wire: seq<WireMessage>)
    ensures Convert(parse, registry, messages[0..]).After([], []) == Convert(parse, registry, messages)
    ensures Convert(parse, registry, messages[|messages|..]).After(system, wire) == Converted(system, wire, registry)
  {
    assert messages[0..] == messages;
    AfterAfter(Convert(parse, registry, messages), [], [], [], []);
    assert messages[|messages|..] == [];
    assert system + [] == system && wire + [] == wire;
  }

  lemma ThinkingStep(registry: Registry, results: seq<ToolResultPayload>, i: nat, content: seq<WireBlock>)
    requires i < |results|
    ensures var callId := results[i].callId;
            content + ReplayedThinking(registry, results[i..])
            == (if callId in registry then content + ThinkingBlocks(registry[callId].thinking) else content)
               + ReplayedThinking(registry, results[i + 1..])
  {
    assert results[i..][0] == results[i] && results[i..][1..] == results[i + 1..];
  }

  /** The conversion so far: what is left to convert comes after what was emitted. */
  ghost predicate Progress(
    parse: JsonParser, converted: Converted, registry: Registry, messages: seq<Message>, index: nat,
    system: seq<string>, wire: seq<WireMessage>)
  {
    index <= |messages| && converted == Convert(parse, registry, messages[index..]).After(system, wire)
  }

  lemma ProgressStarts(parse: JsonParser, registry: Registry, messages: seq<Message>)
    ensures Progress(parse, Convert(parse, registry, messages), registry, messages, 0, [], [])
  {
    ConvertEnds(parse, registry, messages, [], []);
  }

  lemma ProgressStep(
    parse: JsonParser, converted: Converted, registry: Registry, messages: seq<Message>, index: nat,
    system: seq<string>, wire: seq<WireMessage>)
    requires Progress(parse, converted, registry, messages, index, system, wire) && index < |messages|
    ensures var step := NextStep(parse, registry, messages[index..]);
            Progress(parse, converted, step.registry, messages, index + step.taken,
                     system + step.system, wire + step.wire)
  {
    var step := NextStep(parse, registry, messages[index..]);
    ConvertUnfold(parse, registry, messages[index..]);
    assert messages[index..][step.taken..] == messages[index + step.taken..];
    AfterAfter(Convert(parse, step.registry, messages[index + step.taken..]), system, wire, step.system, step.wire);
  }

  lemma ProgressEnds(
    parse: JsonParser, converted: Converted, registry: Registry, messages: seq<Message>,
    system: seq<string>, wire: seq<WireMessage>)
    requires Progress(parse, converted, registry, messages, |messages|, system, wire)
    ensures converted == Converted(system, wire, registry)
  {
    ConvertEnds(parse, registry, messages, system, wire);
  }

  class Adapter {
    var toolUseRegistry: Registry

    constructor ()
      ensures toolUseRegistry == map[]
    {
      toolUseRegistry := map[];
    }

    method CollectToolResults(messages: seq<Message>, start: nat) returns (results: seq<ToolResultPayload>, next: nat)
      requires start <= |messages|
      ensures results == LeadingResults(messages[start..]) && next == start + |results|
    {
      results, next := [], start;
      while next < |messages|
        invariant start <= next <= |messages| && next == start + |results|
        invariant LeadingResults(messages[start..]) == results + LeadingResults(messages[next..])
      {
        if !IsResult(messages[next]) {
          break;
        }
        assert messages[next..][1..] == messages[next + 1..];
        results := results + [messages[next].content.result];
        next := next + 1;
      }
    }

    /** The thinking that preceded each call, in call order. */
    method CollectThinking(results: seq<ToolResultPayload>) returns (content: seq<WireBlock>)
      ensures content == ReplayedThinking(toolUseRegistry, results)
    {
      content := [];
      ghost var replayed := ReplayedThinking(toolUseRegistry, results);
      assert results[0..] == results && [] + replayed == replayed;
      for i := 0 to |results|
        invariant content + ReplayedThinking(toolUseRegistry, results[i..]) == replayed
      {
        ThinkingStep(toolUseRegistry, results, i, content);
        if results[i].callId in toolUseRegistry {
          content := content + ThinkingBlocks(toolUseRegistry[results[i].callId].thinking);
        }
      }
      assert results[|results|..] == [] && content + [] == content;
    }

    method PushAssistantAndToolTurn(wire: seq<WireMessage>, text: Option<string>, results: seq<ToolResultPayload>)
      returns (extended: seq<WireMessage>)
      ensures extended == wire + TurnMessages(toolUseRegistry, text, results)
    {
      var content := CollectThinking(results);
      if text.Some? {
        content := content + [TextBlock(text.value)];
      }
      ghost var spoken := content;
      for i := 0 to |results|
        invariant content == spoken + ToolUses(toolUseRegistry, results[..i])
      {
        content := content + [ToolUseFor(toolUseRegistry, results[i])];
      }
      assert results[..|results|] == results;
      assert content == ReplayedThinking(toolUseRegistry, results)
                        + (if text.Some? then [TextBlock(text.value)] else []) + ToolUses(toolUseRegistry, results);
      extended := wire;
      if content != [] {
        extended := extended + [WireMessage(WireAssistant, content)];
      }
      if results != [] {
        extended := extended + [WireMessage(WireUser, ResultBlocks(results))];
      }
    }

    /** Remembers the calls of a recorded assistant turn, keeping what is already known. */
    method SeedRegistry(parse: JsonParser, calls: seq<ToolCallPayload>)
      modifies this
      ensures toolUseRegistry == SeededAll(parse, old(toolUseRegistry), calls)
    {
      for i := 0 to |calls|
        invariant SeededAll(parse, old(toolUseRegistry), calls) == SeededAll(parse, toolUseRegistry, calls[i..])
      {
        assert calls[i..][1..] == calls[i + 1..];
        if calls[i].callId !in toolUseRegistry {
          toolUseRegistry := toolUseRegistry[calls[i].callId :=
            Remembered(calls[i].capabilityName, InputOf(parse, calls[i].arguments), [])];
        }
      }
    }

    /** Converts the message at `index`, and the results that belong with it. */
    method ConvertNext(
      parse: JsonParser, messages: seq<Message>, index: nat, system: seq<string>, wire: seq<WireMessage>)
      returns (next: nat, system': seq<string>, wire': seq<WireMessage>)
      requires index < |messages|
      modifies this
      ensures var step := NextStep(parse, old(toolUseRegistry), messages[index..]);
              next == index + step.taken && toolUseRegistry == step.registry
              && system' == system + step.system && wire' == wire + step.wire
    {
      assert messages[index..][1..] == messages[index + 1..];
      next, system', wire' := index + 1, system, wire;
      match messages[index] {
        case Message(System, Text(text)) =>
          system' := system + [text];
        case Message(User, Text(text)) =>
          wire' := wire + [WireMessage(WireUser, [TextBlock(text)])];
        case Message(Assistant, Text(text)) =>
          var results, end := CollectToolResults(messages, index + 1);
          wire' := PushAssistantAndToolTurn(wire, Some(text), results);
          next := end;
        case Message(Tool, ToolResult(_)) =>
          var results, end := CollectToolResults(messages, index);
          wire' := PushAssistantAndToolTurn(wire, None, results);
          next := end;
        case Message(Assistant, ToolCalls(calls)) =>
          SeedRegistry(parse, calls);
        case _ =>
      }
    }

    method Advance(
      parse: JsonParser, ghost converted: Converted, messages: seq<Message>, index: nat, system: seq<string>,
      wire: seq<WireMessage>)
      returns (next: nat, system': seq<string>, wire': seq<WireMessage>)
      requires Progress(parse, converted, toolUseRegistry, messages, index, system, wire) && index < |messages|
      modifies this
      ensures Progress(parse, converted, toolUseRegistry, messages, next, system', wire') && index < next <= |messages|
    {
      ProgressStep(parse, converted, toolUseRegistry, messages, index, system, wire);
      ghost var step := NextStep(parse, toolUseRegistry, messages[index..]);
      next, system', wire' := ConvertNext(parse, messages, index, system, wire);
      assert next == index + step.taken && toolUseRegistry == step.registry;
      assert system' == system + step.system && wire' == wire + step.wire;
    }

    /** Converts message after message, from the first to the last. */
    method ConvertEach(parse: JsonParser, messages: seq<Message>) returns (system: seq<string>, wire: seq<WireMessage>)
      modifies this
      ensures Converted(system, wire, toolUseRegistry) == Convert(parse, old(toolUseRegistry), messages)
    {
      system, wire := [], [];
      var index := 0;
      ghost var converted := Convert(parse, toolUseRegistry, messages);
      ProgressStarts(parse, toolUseRegistry, messages);
      while index < |messages|
        invariant index <= |messages|
        invariant Progress(parse, converted, toolUseRegistry, messages, index, system, wire)
      {
        index, system, wire := Advance(parse, converted, messages, index, system, wire);
      }
      ProgressEnds(parse, converted, toolUseRegistry, messages, system, wire);
    }

    /** Groups the loop's flat message list into the wire shape. */
    method ConvertMessages(parse: JsonParser, messages: seq<Message>, ephemeral: bool)
      returns (systemBlocks: seq<SystemBlock>, wire: seq<WireMessage>)
      modifies this
      ensures var converted := Convert(parse, old(toolUseRegistry), messages);
              wire == converted.wire && toolUseRegistry == converted.registry
              && systemBlocks == SystemBlocks(converted.system, ephemeral)
    {
      var system: seq<string>;
      system, wire := ConvertEach(parse, messages);
      systemBlocks := SystemBlocks(system, ephemeral);
    }
  }
}
