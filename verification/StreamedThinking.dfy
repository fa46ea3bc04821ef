/** What an event stream means, told from its history: the thinking that is replayed with each
    call, and the text (crates/familiar-ai-agent/src/anthropic.rs, lines 494-590). */
module StreamedThinking {
  import opened Wrappers
  import opened Transcript
  import opened ToolCalls
  import opened StreamCollector
  import opened AnthropicAdapter
  import opened StreamedCalls

  // ------------------------------------------------------------------
  // One block index
  // ------------------------------------------------------------------

  /** What is open at a block index: a call, thinking, and the last signature. */
  datatype Block = Block(tool: Option<(string, string)>, thinking: Option<string>, signature: string)

  predicate IsAt(event: SseEvent, index: nat) {
    (event.ContentBlockStart? || event.ContentBlockDelta? || event.ContentBlockStop?) && event.index == index
  }

  /** What an event at the index makes of it. Stopping a call leaves the thinking open. */
  function Next(block: Block, event: SseEvent): Block {
    match event
    case ContentBlockStart(_, StartToolUse(id, name)) => block.(tool := Some((id, name)))
    case ContentBlockStart(_, StartThinking(thinking)) => block.(thinking := Some(thinking))
    case ContentBlockDelta(_, ThinkingFragment(fragment)) =>
      block.(thinking := Some((if block.thinking.Some? then block.thinking.value else "") + fragment))
    case ContentBlockDelta(_, SignatureFragment(signature)) => block.(signature := signature)
    case ContentBlockStop(_) =>
      if block.tool.Some? then block.(tool := None)
      else if block.thinking.Some? then Block(None, None, "")
      else block
    case _ => block
  }

  /** The block at an index after these events of a stream. */
  function At(index: nat, events: seq<SseEvent>): Block {
    if events == [] then Block(None, None, "")
    else
      var before, last := At(index, events[..|events| - 1]), events[|events| - 1];
      if IsAt(last, index) then Next(before, last) else before
  }

  /** The events at one index. */
  function Own(index: nat, events: seq<SseEvent>): seq<SseEvent> {
    if events == [] then []
    else
      var last := events[|events| - 1];
      Own(index, events[..|events| - 1]) + if IsAt(last, index) then [last] else []
  }

  /** However a stream interleaves its blocks, each is what its own events make of it. */
  lemma {:induction false} BlocksDoNotMix(index: nat, events: seq<SseEvent>)
    ensures At(index, events) == At(index, Own(index, events))
  {
    if events != [] {
      var front, last := events[..|events| - 1], events[|events| - 1];
      BlocksDoNotMix(index, front);
      if IsAt(last, index) {
        assert Own(index, events)[..|Own(index, front)|] == Own(index, front);
      } else {
        assert Own(index, events) == Own(index, front);
      }
    }
  }

  // ------------------------------------------------------------------
  // The stream so far
  // ------------------------------------------------------------------

  /** The call open at an index. */
  predicate CallAt(events: seq<SseEvent>, index: nat, callId: string) {
    At(index, events).tool.Some? && At(index, events).tool.value.0 == callId
  }

  /** The argument fragments of a call since it was opened. */
  function Arguments(events: seq<SseEvent>, callId: string): string {
    if events == [] then ""
    else
      var front, last := events[..|events| - 1], events[|events| - 1];
      match last
      case ContentBlockStart(_, StartToolUse(id, _)) => if id == callId then "" else Arguments(front, callId)
      case ContentBlockDelta(index, InputFragment(json)) =>
        Arguments(front, callId) + if CallAt(front, index, callId) then json else ""
      case ContentBlockStop(index) => if CallAt(front, index, callId) then "" else Arguments(front, callId)
      case _ => Arguments(front, callId)
  }

  /** The event ends a call whose arguments parse. */
  predicate Remembers(parse: JsonParser, events: seq<SseEvent>, event: SseEvent) {
    && event.ContentBlockStop? && At(event.index, events).tool.Some?
    && parse(Arguments(events, At(event.index, events).tool.value.0)).Some?
  }

  predicate EndsThinking(events: seq<SseEvent>, event: SseEvent) {
    event.ContentBlockStop? && At(event.index, events).tool.None? && At(event.index, events).thinking.Some?
  }

  /** The thinking blocks ended since a call was last remembered. */
  function Pondered(parse: JsonParser, events: seq<SseEvent>): seq<(string, string)> {
    if events == [] then []
    else
      var front, last := events[..|events| - 1], events[|events| - 1];
      if Remembers(parse, front, last) then []
      else
        Pondered(parse, front)
        + if EndsThinking(front, last)
          then [(At(last.index, front).thinking.value, At(last.index, front).signature)] else []
  }

  /** What is remembered of a call: its last ending with arguments that parse, with the thinking
      ended since the call remembered before it. */
  function RememberedOf(parse: JsonParser, known: Registry, events: seq<SseEvent>, callId: string)
    : Option<Remembered>
  {
    if events == [] then (if callId in known then Some(known[callId]) else None)
    else
      var front, last := events[..|events| - 1], events[|events| - 1];
      if Remembers(parse, front, last) && CallAt(front, last.index, callId)
      then Some(Remembered(At(last.index, front).tool.value.1, parse(Arguments(front, callId)).value,
                           Pondered(parse, front)))
      else RememberedOf(parse, known, front, callId)
  }

  /** What an event adds to the text; a block that starts with no text adds none. */
  function Adds(event: SseEvent): Option<string> {
    match event
    case ContentBlockStart(_, StartText(text)) => if text == "" then None else Some(text)
    case ContentBlockDelta(_, TextFragment(text)) => Some(text)
    case _ => None
  }

  /** The text of a stream, in order. */
  function Said(events: seq<SseEvent>): Option<string> {
    if events == [] then None
    else
      var before, more := Said(events[..|events| - 1]), Adds(events[|events| - 1]);
      if more.None? then before else Some((if before.Some? then before.value else "") + more.value)
  }

  // ------------------------------------------------------------------
  // The fold keeps this history
  // ------------------------------------------------------------------

  function BlockOf(f: Folded, index: nat): Block {
    Block(if index in f.open then Some(f.open[index]) else None,
          if index in f.openThinking then Some(f.openThinking[index]) else None,
          Lookup(f.signatures, index, ""))
  }

  /** The fold's maps and the registry hold what the history says. */
  ghost predicate Recalls(parse: JsonParser, known: Registry, events: seq<SseEvent>, f: Folded) {
    && (forall index: nat :: BlockOf(f, index) == At(index, events))
    && (forall callId :: Lookup(f.inputs, callId, "") == Arguments(events, callId))
    && f.pendingThinking == Pondered(parse, events)
    && (forall callId :: (if callId in f.registry then Some(f.registry[callId]) else None)
                         == RememberedOf(parse, known, events, callId))
  }

  lemma {:induction false} FoldAppend(parse: JsonParser, f: Folded, events: seq<SseEvent>, event: SseEvent)
    ensures FoldAll(parse, f, events + [event]) == OnSse(parse, FoldAll(parse, f, events), event)
    decreases |events|
  {
    if events == [] {
      assert ([] + [event])[1..] == [];
    } else {
      assert (events + [event])[0] == events[0] && (events + [event])[1..] == events[1..] + [event];
      FoldAppend(parse, OnSse(parse, f, events[0]), events[1..], event);
    }
  }

  /** What closing a call does to the fold. */
  lemma CloseIsLocal(parse: JsonParser, f: Folded, index: nat)
    requires index in f.open
    ensures var g := CloseToolUse(parse, f, index);
            var (callId, name) := f.open[index];
            var input := parse(Lookup(f.inputs, callId, ""));
            && g.open == f.open - {index} && g.openThinking == f.openThinking && g.signatures == f.signatures
            && g.inputs == f.inputs - {callId}
            && g.registry == (if input.Some? then f.registry[callId := Remembered(name, input.value, f.pendingThinking)]
                              else f.registry)
            && g.pendingThinking == (if input.Some? then [] else f.pendingThinking)
            && g.emitted == f.emitted + [ToolCallComplete(callId)]
  {
  }

  lemma StopIsRecalled(parse: JsonParser, f: Folded, stopped: nat, index: nat)
    ensures var last := ContentBlockStop(stopped);
            BlockOf(OnSse(parse, f, last), index)
            == if index == stopped then Next(BlockOf(f, index), last) else BlockOf(f, index)
  {
    if stopped in f.open {
      CloseIsLocal(parse, f, stopped);
    }
  }

  lemma StartIsRecalled(parse: JsonParser, f: Folded, started: nat, start: BlockStart, index: nat)
    ensures var last := ContentBlockStart(started, start);
            BlockOf(OnSse(parse, f, last), index)
            == if index == started then Next(BlockOf(f, index), last) else BlockOf(f, index)
  {
  }

  lemma DeltaIsRecalled(parse: JsonParser, f: Folded, at: nat, delta: BlockDelta, index: nat)
    ensures var last := ContentBlockDelta(at, delta);
            BlockOf(OnSse(parse, f, last), index)
            == if index == at then Next(BlockOf(f, index), last) else BlockOf(f, index)
  {
  }

  lemma BlockIsRecalled(parse: JsonParser, f: Folded, last: SseEvent, index: nat)
    ensures BlockOf(OnSse(parse, f, last), index)
            == if IsAt(last, index) then Next(BlockOf(f, index), last) else BlockOf(f, index)
  {
    match last
    case ContentBlockStart(at, start) => StartIsRecalled(parse, f, at, start, index);
    case ContentBlockDelta(at, delta) => DeltaIsRecalled(parse, f, at, delta, index);
    case ContentBlockStop(at) => StopIsRecalled(parse, f, at, index);
    case _ =>
  }

  /** Which argument buffers an event touches. */
  lemma InputsChange(parse: JsonParser, f: Folded, event: SseEvent, callId: string)
    ensures var after := Lookup(OnSse(parse, f, event).inputs, callId, "");
            var before := Lookup(f.inputs, callId, "");
            match event
            case ContentBlockStart(_, StartToolUse(id, _)) => after == if id == callId then "" else before
            case ContentBlockDelta(index, InputFragment(json)) =>
              after == before + if index in f.open && f.open[index].0 == callId then json else ""
            case ContentBlockStop(index) =>
              after == if index in f.open && f.open[index].0 == callId then "" else before
            case _ => after == before
  {
    if event.ContentBlockStop? && event.index in f.open {
      CloseIsLocal(parse, f, event.index);
    }
    var before := Lookup(f.inputs, callId, "");
    assert before + "" == before;
  }

  lemma ArgumentsAreRecalled(
    parse: JsonParser, known: Registry, events: seq<SseEvent>, f: Folded, last: SseEvent, callId: string)
    requires Recalls(parse, known, events, f)
    ensures Lookup(OnSse(parse, f, last).inputs, callId, "") == Arguments(events + [last], callId)
  {
    assert (events + [last])[..|events|] == events;
    assert Lookup(f.inputs, callId, "") == Arguments(events, callId);
    InputsChange(parse, f, last, callId);
    if last.ContentBlockDelta? || last.ContentBlockStop? {
      assert BlockOf(f, last.index) == At(last.index, events);
    }
  }

  /** Only the end of a block changes what is pending and remembered. */
  lemma OnlyStopsRemember(parse: JsonParser, f: Folded, event: SseEvent)
    ensures !event.ContentBlockStop? ==>
              OnSse(parse, f, event).pendingThinking == f.pendingThinking
              && OnSse(parse, f, event).registry == f.registry
  {
  }

  lemma CallIsRecalled(
    parse: JsonParser, known: Registry, events: seq<SseEvent>, f: Folded, last: SseEvent, callId: string)
    requires Recalls(parse, known, events, f)
    ensures var g := OnSse(parse, f, last);
            && g.pendingThinking == Pondered(parse, events + [last])
            && (if callId in g.registry then Some(g.registry[callId]) else None)
               == RememberedOf(parse, known, events + [last], callId)
  {
    if last.ContentBlockStop? {
      EndIsRecalled(parse, known, events, f, last.index, callId);
    } else {
      assert (events + [last])[..|events|] == events;
      OnlyStopsRemember(parse, f, last);
      assert (if callId in f.registry then Some(f.registry[callId]) else None)
          == RememberedOf(parse, known, events, callId);
    }
  }

  lemma EndIsRecalled(
    parse: JsonParser, known: Registry, events: seq<SseEvent>, f: Folded, index: nat, callId: string)
    requires Recalls(parse, known, events, f)
    ensures var last := ContentBlockStop(index);
            var g := OnSse(parse, f, last);
            && g.pendingThinking == Pondered(parse, events + [last])
            && (if callId in g.registry then Some(g.registry[callId]) else None)
               == RememberedOf(parse, known, events + [last], callId)
  {
    assert (events + [ContentBlockStop(index)])[..|events|] == events;
    assert BlockOf(f, index) == At(index, events);
    assert (if callId in f.registry then Some(f.registry[callId]) else None)
        == RememberedOf(parse, known, events, callId);
    if index in f.open {
      CloseIsLocal(parse, f, index);
      assert Lookup(f.inputs, f.open[index].0, "") == Arguments(events, f.open[index].0);
    }
  }

  lemma EventIsRecalled(parse: JsonParser, known: Registry, events: seq<SseEvent>, f: Folded, last: SseEvent)
    requires Recalls(parse, known, events, f)
    ensures Recalls(parse, known, events + [last], OnSse(parse, f, last))
  {
    assert (events + [last])[..|events|] == events;
    forall index: nat ensures BlockOf(OnSse(parse, f, last), index) == At(index, events + [last]) {
      BlockIsRecalled(parse, f, last, index);
      assert BlockOf(f, index) == At(index, events);
    }
    forall callId ensures Lookup(OnSse(parse, f, last).inputs, callId, "") == Arguments(events + [last], callId) {
      ArgumentsAreRecalled(parse, known, events, f, last, callId);
    }
    CallIsRecalled(parse, known, events, f, last, "");
    forall callId
      ensures (if callId in OnSse(parse, f, last).registry then Some(OnSse(parse, f, last).registry[callId]) else None)
              == RememberedOf(parse, known, events + [last], callId)
    {
      CallIsRecalled(parse, known, events, f, last, callId);
    }
  }

  /** After any stream, however its blocks interleave, the adapter has pending exactly the
      thinking ended since the last remembered call, and remembers with each call exactly the
      thinking ended since the call remembered before it, in order. */
  lemma {:induction false} StreamIsRecalled(parse: JsonParser, known: Registry, events: seq<SseEvent>)
    ensures Recalls(parse, known, events, FoldAll(parse, StartOfStream(known), events))
  {
    if events != [] {
      var front, last := events[..|events| - 1], events[|events| - 1];
      assert front + [last] == events;
      StreamIsRecalled(parse, known, front);
      FoldAppend(parse, StartOfStream(known), front, last);
      EventIsRecalled(parse, known, front, FoldAll(parse, StartOfStream(known), front), last);
    }
  }

  // ------------------------------------------------------------------
  // A thinking block
  // ------------------------------------------------------------------

  /** No block starts or stops at the index. */
  predicate OnlyDeltas(index: nat, events: seq<SseEvent>) {
    forall event | event in events :: IsAt(event, index) ==> event.ContentBlockDelta?
  }

  function Fragments(index: nat, events: seq<SseEvent>): string {
    if events == [] then ""
    else
      (if IsAt(events[0], index) && events[0].ContentBlockDelta? && events[0].delta.ThinkingFragment?
       then events[0].delta.thinking else "")
      + Fragments(index, events[1..])
  }

  function LastSignature(index: nat, events: seq<SseEvent>, before: string): string {
    if events == [] then before
    else
      LastSignature(index, events[1..],
        if IsAt(events[0], index) && events[0].ContentBlockDelta? && events[0].delta.SignatureFragment?
        then events[0].delta.signature else before)
  }

  lemma DeltaJoins(index: nat, before: seq<SseEvent>, event: SseEvent)
    requires (IsAt(event, index) ==> event.ContentBlockDelta?) && At(index, before).thinking.Some?
    ensures var block := At(index, before);
            var thinks := IsAt(event, index) && event.delta.ThinkingFragment?;
            var signs := IsAt(event, index) && event.delta.SignatureFragment?;
            At(index, before + [event])
            == Block(block.tool, Some(block.thinking.value + if thinks then event.delta.thinking else ""),
                     if signs then event.delta.signature else block.signature)
  {
    assert (before + [event])[..|before|] == before;
    assert At(index, before).thinking.value + "" == At(index, before).thinking.value;
  }

  lemma {:induction false} DeltasJoin(index: nat, before: seq<SseEvent>, more: seq<SseEvent>)
    requires OnlyDeltas(index, more) && At(index, before).thinking.Some?
    ensures var block := At(index, before);
            At(index, before + more)
            == Block(block.tool, Some(block.thinking.value + Fragments(index, more)),
                     LastSignature(index, more, block.signature))
    decreases |more|
  {
    if more == [] {
      assert before + more == before;
      assert At(index, before).thinking.value + "" == At(index, before).thinking.value;
    } else {
      var next := before + [more[0]];
      assert next[..|before|] == before && before + more == next + more[1..];
      assert more[0] in more;
      DeltaJoins(index, before, more[0]);
      DeltasJoin(index, next, more[1..]);
      var fragment :=
        if IsAt(more[0], index) && more[0].delta.ThinkingFragment? then more[0].delta.thinking else "";
      assert At(index, before).thinking.value + (fragment + Fragments(index, more[1..]))
          == At(index, before).thinking.value + fragment + Fragments(index, more[1..]);
    }
  }

  /** A thinking block that ends, where no call is open, is pending as the text it started with
      and all its fragments, in order, with its last signature - whatever happens in between at
      other indices. */
  lemma ThinkingIsJoinedFragments(
    parse: JsonParser, known: Registry, before: seq<SseEvent>, index: nat, thinking: string, more: seq<SseEvent>)
    requires OnlyDeltas(index, more) && At(index, before).tool.None?
    ensures var started := before + [ContentBlockStart(index, StartThinking(thinking))] + more;
            var open := FoldAll(parse, StartOfStream(known), started);
            var ended := FoldAll(parse, StartOfStream(known), started + [ContentBlockStop(index)]);
            && ended.registry == open.registry
            && ended.pendingThinking
               == open.pendingThinking
                  + [(thinking + Fragments(index, more), LastSignature(index, more, At(index, before).signature))]
  {
    var first := before + [ContentBlockStart(index, StartThinking(thinking))];
    var started, stop := first + more, ContentBlockStop(index);
    assert first[..|before|] == before;
    DeltasJoin(index, first, more);
    StreamIsRecalled(parse, known, started);
    FoldAppend(parse, StartOfStream(known), started, stop);
    assert BlockOf(FoldAll(parse, StartOfStream(known), started), index) == At(index, started);
  }

  /** The end of a call whose arguments do not parse remembers nothing, and leaves what was
      thought ahead of it for the next call. */
  lemma UnparsedCallKeepsThinking(
    parse: JsonParser, known: Registry, events: seq<SseEvent>, index: nat, callId: string)
    requires CallAt(events, index, callId) && parse(Arguments(events, callId)).None?
    ensures var f := FoldAll(parse, StartOfStream(known), events);
            var g := FoldAll(parse, StartOfStream(known), events + [ContentBlockStop(index)]);
            g.registry == f.registry && g.pendingThinking == f.pendingThinking
  {
    var f := FoldAll(parse, StartOfStream(known), events);
    StreamIsRecalled(parse, known, events);
    FoldAppend(parse, StartOfStream(known), events, ContentBlockStop(index));
    assert BlockOf(f, index) == At(index, events);
    assert Lookup(f.inputs, callId, "") == Arguments(events, callId);
    CloseIsLocal(parse, f, index);
  }

  // ------------------------------------------------------------------
  // Text
  // ------------------------------------------------------------------

  /** Nothing is forwarded, or one event that is no text. */
  ghost predicate QuietlyEmits(f: Folded, g: Folded) {
    g.emitted == f.emitted || exists e: StreamEvent :: !e.TextDelta? && g.emitted == f.emitted + [e]
  }

  lemma StopsEmitQuietly(parse: JsonParser, f: Folded, index: nat)
    ensures QuietlyEmits(f, OnSse(parse, f, ContentBlockStop(index)))
  {
    if index in f.open {
      CloseIsLocal(parse, f, index);
      assert !ToolCallComplete(f.open[index].0).TextDelta?;
    }
  }

  lemma DeltasEmit(parse: JsonParser, f: Folded, index: nat, delta: BlockDelta)
    ensures var g := OnSse(parse, f, ContentBlockDelta(index, delta));
            if delta.TextFragment? then g.emitted == f.emitted + [TextDelta(delta.text)] else QuietlyEmits(f, g)
  {
    if delta.InputFragment? && index in f.open {
      assert !ToolCallDelta(f.open[index].0, f.open[index].1, delta.json).TextDelta?;
    }
  }

  lemma TextIsEmitted(parse: JsonParser, f: Folded, event: SseEvent)
    ensures var g := OnSse(parse, f, event);
            if Adds(event).Some? then g.emitted == f.emitted + [TextDelta(Adds(event).value)]
            else QuietlyEmits(f, g)
  {
    match event
    case ContentBlockStop(index) => StopsEmitQuietly(parse, f, index);
    case ContentBlockDelta(index, delta) => DeltasEmit(parse, f, index, delta);
    case MessageDelta => assert !UsageDelta.TextDelta?;
    case _ =>
  }

  /** The loop's collector receives the text of the stream. */
  lemma {:induction false} TextIsForwarded(parse: JsonParser, known: Registry, events: seq<SseEvent>)
    ensures Observed(parse, FoldAll(parse, StartOfStream(known), events)).text == Said(events)
  {
    if events != [] {
      var front, last := events[..|events| - 1], events[|events| - 1];
      assert front + [last] == events;
      TextIsForwarded(parse, known, front);
      FoldAppend(parse, StartOfStream(known), front, last);
      EventIsHeard(parse, FoldAll(parse, StartOfStream(known), front), last);
    }
  }

  lemma EventIsHeard(parse: JsonParser, f: Folded, event: SseEvent)
    ensures var text := Observed(parse, f).text;
            Observed(parse, OnSse(parse, f, event)).text
            == if Adds(event).Some? then Some((if text.Some? then text.value else "") + Adds(event).value) else text
  {
    var g := OnSse(parse, f, event);
    TextIsEmitted(parse, f, event);
    if Adds(event).Some? {
      Forwarding(parse, f, g, TextDelta(Adds(event).value));
    } else if g.emitted != f.emitted {
      var e: StreamEvent :| !e.TextDelta? && g.emitted == f.emitted + [e];
      Forwarding(parse, f, g, e);
    }
  }
}
