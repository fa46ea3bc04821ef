/** The provider-neutral vocabulary a run of the agent loop is written in: the
    messages of a conversation, the events an adapter streams, and what one
    submission reports (crates/familiar-ai-llm/src/attempt.rs). */
module Transcript {
  import opened Wrappers

  /** A JSON value, seen only through its serialized text and, when it is an
      object, the set of its keys. Parsing is a parameter wherever it is needed. */
  datatype Json = Json(text: string, keys: Option<set<string>>)

  type JsonParser = string -> Option<Json>

  const JSON_NULL := Json("null", None)
  const JSON_EMPTY_OBJECT := Json("{}", Some({}))

  datatype Role = System | User | Assistant | Tool

  datatype ToolCallPayload = ToolCallPayload(callId: string, capabilityName: string, arguments: string)

  datatype ToolResultPayload = ToolResultPayload(callId: string, capabilityName: string, content: string, isError: bool)

  datatype Content =
    | Text(text: string)
    | ToolCalls(calls: seq<ToolCallPayload>)
    | ToolResult(result: ToolResultPayload)

  datatype Message = Message(role: Role, content: Content)

  datatype AdapterStop =
    | EndTurn | ToolUse | MaxTokens | StopSequence | ContentFilter | PauseTurn | Refusal

  datatype Usage = Usage(outputTokens: Option<nat>)

  datatype SubmitOutcome = SubmitOutcome(stop: AdapterStop, usage: Usage, requestId: Option<string>)

  datatype AdapterError = Retryable | NonRetryable | Ambiguous

  datatype StreamEvent =
    | TextDelta(delta: string)
    | ToolCallDelta(callId: string, capabilityId: string, fragment: string)
    | ToolCallComplete(completedId: string)
    | UsageDelta
    | Stop

  /** One logical turn of a conversation: what the assistant said, the calls it
      issued, and the results that answer them. */
  datatype Turn = Turn(text: Option<string>, calls: seq<ToolCallPayload>, results: seq<ToolResultPayload>) {

    /** Every call is answered once, in order, and nothing else is. */
    ghost predicate Answered() {
      && |results| == |calls|
      && forall i :: 0 <= i < |calls| ==> results[i].callId == calls[i].callId
    }

    function Messages(): seq<Message> {
      (if text.Some? then [Message(Assistant, Text(text.value))] else [])
      + (if calls == [] then [] else [Message(Assistant, ToolCalls(calls))] + ResultMessages(results))
    }
  }

  function ResultMessages(results: seq<ToolResultPayload>): (messages: seq<Message>)
    ensures |messages| == |results|
    ensures forall i :: 0 <= i < |results| ==> messages[i] == Message(Tool, ToolResult(results[i]))
  {
    seq(|results|, i requires 0 <= i < |results| => Message(Tool, ToolResult(results[i])))
  }

  function Flatten(turns: seq<Turn>): seq<Message> {
    if turns == [] then [] else turns[0].Messages() + Flatten(turns[1..])
  }

  lemma {:induction false} FlattenAppend(turns: seq<Turn>, turn: Turn)
    ensures Flatten(turns + [turn]) == Flatten(turns) + turn.Messages()
  {
    if turns == [] {
      assert turns + [turn] == [turn];
      assert Flatten([turn]) == turn.Messages() + Flatten([turn][1..]);
    } else {
      assert (turns + [turn])[1..] == turns[1..] + [turn];
      FlattenAppend(turns[1..], turn);
    }
  }
}
