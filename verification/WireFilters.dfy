/** The tool blocks of a wire conversation, picked out in order: the tool_use blocks, which
    only assistant messages hold, and the tool_result blocks, which only user messages hold.
    Picking out goes through concatenation, finds nothing in thinking and text, and finds
    everything in a list of uses or of results. What a conversion promises about tools is
    stated over these (crates/familiar-ai-agent/src/anthropic.rs, lines 271-349); the wire
    blocks themselves, and how a turn becomes messages, are the adapter's. */
module WireFilters {
  import opened Wrappers
  import opened Transcript
  import opened AnthropicAdapter

  function UsesIn(blocks: seq<WireBlock>): seq<WireBlock> {
    if blocks == [] then [] else (if blocks[0].ToolUseBlock? then [blocks[0]] else []) + UsesIn(blocks[1..])
  }

  function ResultsIn(blocks: seq<WireBlock>): seq<WireBlock> {
    if blocks == [] then [] else (if blocks[0].ToolResultBlock? then [blocks[0]] else []) + ResultsIn(blocks[1..])
  }

  function UsesOnWire(wire: seq<WireMessage>): seq<WireBlock> {
    if wire == [] then [] else UsesIn(wire[0].content) + UsesOnWire(wire[1..])
  }

  function ResultsOnWire(wire: seq<WireMessage>): seq<WireBlock> {
    if wire == [] then [] else ResultsIn(wire[0].content) + ResultsOnWire(wire[1..])
  }

  // ------------------------------------------------------------------
  // Filters over concatenations
  // ------------------------------------------------------------------

  lemma AppendInFront<T>(a: seq<T>, b: seq<T>, c: seq<T>)
    ensures a + (b + c) == (a + b) + c
  {
  }

  lemma {:induction false} FiltersAppend(a: seq<WireBlock>, b: seq<WireBlock>)
    ensures UsesIn(a + b) == UsesIn(a) + UsesIn(b) && ResultsIn(a + b) == ResultsIn(a) + ResultsIn(b)
  {
    if a == [] {
      assert a + b == b;
    } else {
      assert (a + b)[0] == a[0] && (a + b)[1..] == a[1..] + b;
      FiltersAppend(a[1..], b);
      var use, result := if a[0].ToolUseBlock? then [a[0]] else [], if a[0].ToolResultBlock? then [a[0]] else [];
      AppendInFront(use, UsesIn(a[1..]), UsesIn(b));
      AppendInFront(result, ResultsIn(a[1..]), ResultsIn(b));
    }
  }

  lemma {:induction false} UsesOnWireAppend(a: seq<WireMessage>, b: seq<WireMessage>)
    ensures UsesOnWire(a + b) == UsesOnWire(a) + UsesOnWire(b)
  {
    if a == [] {
      assert a + b == b;
    } else {
      assert (a + b)[0] == a[0] && (a + b)[1..] == a[1..] + b;
      UsesOnWireAppend(a[1..], b);
      AppendInFront(UsesIn(a[0].content), UsesOnWire(a[1..]), UsesOnWire(b));
    }
  }

  lemma {:induction false} ResultsOnWireAppend(a: seq<WireMessage>, b: seq<WireMessage>)
    ensures ResultsOnWire(a + b) == ResultsOnWire(a) + ResultsOnWire(b)
  {
    if a == [] {
      assert a + b == b;
    } else {
      assert (a + b)[0] == a[0] && (a + b)[1..] == a[1..] + b;
      ResultsOnWireAppend(a[1..], b);
      AppendInFront(ResultsIn(a[0].content), ResultsOnWire(a[1..]), ResultsOnWire(b));
    }
  }

  lemma WireFiltersAppend(a: seq<WireMessage>, b: seq<WireMessage>)
    ensures UsesOnWire(a + b) == UsesOnWire(a) + UsesOnWire(b)
    ensures ResultsOnWire(a + b) == ResultsOnWire(a) + ResultsOnWire(b)
  {
    UsesOnWireAppend(a, b);
    ResultsOnWireAppend(a, b);
  }

  lemma {:induction false} ThinkingHasNoTools(thinking: seq<(string, string)>)
    ensures UsesIn(ThinkingBlocks(thinking)) == [] == ResultsIn(ThinkingBlocks(thinking))
  {
    if thinking != [] {
      ThinkingHasNoTools(thinking[1..]);
      assert ThinkingBlocks(thinking)[1..] == ThinkingBlocks(thinking[1..]);
    }
  }

  lemma {:induction false} ReplayedThinkingHasNoTools(registry: Registry, results: seq<ToolResultPayload>)
    ensures UsesIn(ReplayedThinking(registry, results)) == [] == ResultsIn(ReplayedThinking(registry, results))
  {
    if results != [] {
      ReplayedThinkingHasNoTools(registry, results[1..]);
      var callId := results[0].callId;
      var head := if callId in registry then ThinkingBlocks(registry[callId].thinking) else [];
      if callId in registry {
        ThinkingHasNoTools(registry[callId].thinking);
      }
      FiltersAppend(head, ReplayedThinking(registry, results[1..]));
    }
  }

  lemma {:induction false} OnlyUses(blocks: seq<WireBlock>)
    requires forall i :: 0 <= i < |blocks| ==> blocks[i].ToolUseBlock?
    ensures UsesIn(blocks) == blocks && ResultsIn(blocks) == []
  {
    if blocks != [] {
      OnlyUses(blocks[1..]);
      assert blocks == [blocks[0]] + blocks[1..];
    }
  }

  lemma {:induction false} OnlyResults(blocks: seq<WireBlock>)
    requires forall i :: 0 <= i < |blocks| ==> blocks[i].ToolResultBlock?
    ensures ResultsIn(blocks) == blocks && UsesIn(blocks) == []
  {
    if blocks != [] {
      OnlyResults(blocks[1..]);
      assert blocks == [blocks[0]] + blocks[1..];
    }
  }

  lemma ToolUsesAreUses(registry: Registry, results: seq<ToolResultPayload>)
    ensures UsesIn(ToolUses(registry, results)) == ToolUses(registry, results)
            && ResultsIn(ToolUses(registry, results)) == []
    ensures ResultsIn(ResultBlocks(results)) == ResultBlocks(results) && UsesIn(ResultBlocks(results)) == []
  {
    OnlyUses(ToolUses(registry, results));
    OnlyResults(ResultBlocks(results));
  }
}
