/** The adapter's fold over the provider's event stream: what it forwards to the loop's
    collector, and which tool calls it remembers for later replay
    (crates/familiar-ai-agent/src/anthropic.rs, lines 477-599). The two halves see the same
    events but keep their own buffers; on a well-formed stream they agree about every call,
    and every call is new. */
module StreamedCalls {
  import opened Wrappers
  import opened Transcript
  import opened ToolCalls
  import opened StreamCollector
  import opened AnthropicAdapter

  datatype BlockStart =
    | StartToolUse(id: string, name: string) | StartText(text: string) | StartThinking(thinking: string) | StartOther

  datatype BlockDelta =
    | TextFragment(text: string) | InputFragment(json: string) | ThinkingFragment(thinking: string)
    | SignatureFragment(signature: string) | OtherFragment

  datatype SseEvent =
    | ContentBlockStart(index: nat, start: BlockStart)
    | ContentBlockDelta(index: nat, delta: BlockDelta)
    | ContentBlockStop(index: nat)
    | MessageDelta
    | OtherEvent

  /** The fold's maps, the adapter's registry, and the events forwarded so far. */
  datatype Folded = Folded(
    open: map<nat, (string, string)>, inputs: map<string, string>, openThinking: map<nat, string>,
    signatures: map<nat, string>, pendingThinking: seq<(string, string)>, registry: Registry, emitted: seq<StreamEvent>)

  function Lookup<K, V>(m: map<K, V>, key: K, default: V): V {
    if key in m then m[key] else default
  }

  function Emit(f: Folded, event: StreamEvent): Folded {
    f.(emitted := f.emitted + [event])
  }

  function CloseToolUse(parse: JsonParser, f: Folded, index: nat): Folded
    requires index in f.open
  {
    var (callId, name) := f.open[index];
    var closed := f.(open := f.open - {index}, inputs := f.inputs - {callId});
    var remembered :=
      match parse(Lookup(f.inputs, callId, ""))
      case Some(input) =>
        closed.(registry := f.registry[callId := Remembered(name, input, f.pendingThinking)], pendingThinking := [])
      case None => closed;
    Emit(remembered, ToolCallComplete(callId))
  }

  function OnSse(parse: JsonParser, f: Folded, event: SseEvent): Folded {
    match event
    case ContentBlockStart(index, StartToolUse(id, name)) =>
      f.(open := f.open[index := (id, name)], inputs := f.inputs[id := ""])
    case ContentBlockStart(_, StartText(text)) => if text == "" then f else Emit(f, TextDelta(text))
    case ContentBlockStart(index, StartThinking(thinking)) => f.(openThinking := f.openThinking[index := thinking])
    case ContentBlockDelta(_, TextFragment(text)) => Emit(f, TextDelta(text))
    case ContentBlockDelta(index, InputFragment(json)) =>
      if index !in f.open then f
      else
        var (callId, name) := f.open[index];
        Emit(f.(inputs := f.inputs[callId := Lookup(f.inputs, callId, "") + json]), ToolCallDelta(callId, name, json))
    case ContentBlockDelta(index, ThinkingFragment(thinking)) =>
      f.(openThinking := f.openThinking[index := Lookup(f.openThinking, index, "") + thinking])
    case ContentBlockDelta(index, SignatureFragment(signature)) =>
      f.(signatures := f.signatures[index := signature])
    case ContentBlockStop(index) =>
      if index in f.open then CloseToolUse(parse, f, index)
      else if index in f.openThinking then
        f.(openThinking := f.openThinking - {index}, signatures := f.signatures - {index},
           pendingThinking := f.pendingThinking + [(f.openThinking[index], Lookup(f.signatures, index, ""))])
      else f
    case MessageDelta => Emit(f, UsageDelta)
    case _ => f
  }

  function FoldAll(parse: JsonParser, f: Folded, events: seq<SseEvent>): Folded
    decreases |events|
  {
    if events == [] then f else FoldAll(parse, OnSse(parse, f, events[0]), events[1..])
  }

  function StartOfStream(registry: Registry): Folded {
    Folded(map[], map[], map[], map[], [], registry, [])
  }

  /** The fold as the source runs it: a closure over mutable maps. */
  class StreamFold {
    var openToolUse: map<nat, (string, string)>
    var toolUseInputs: map<string, string>
    var openThinking: map<nat, string>
    var thinkingSignatures: map<nat, string>
    var pendingThinking: seq<(string, string)>
    var registry: Registry
    var emitted: seq<StreamEvent>

    function Value(): Folded
      reads this
    {
      Folded(openToolUse, toolUseInputs, openThinking, thinkingSignatures, pendingThinking, registry, emitted)
    }

    constructor (known: Registry)
      ensures Value() == StartOfStream(known)
    {
      openToolUse, toolUseInputs, openThinking, thinkingSignatures := map[], map[], map[], map[];
      pendingThinking, registry, emitted := [], known, [];
    }

    method OnStop(parse: JsonParser, index: nat)
      modifies this
      ensures Value() == OnSse(parse, old(Value()), ContentBlockStop(index))
    {
      if index in openToolUse {
        var (callId, name) := openToolUse[index];
        openToolUse := openToolUse - {index};
        var accumulated := Lookup(toolUseInputs, callId, "");
        toolUseInputs := toolUseInputs - {callId};
        var parsed := parse(accumulated);
        if parsed.Some? {
          registry := registry[callId := Remembered(name, parsed.value, pendingThinking)];
          pendingThinking := [];
        }
        emitted := emitted + [ToolCallComplete(callId)];
      } else if index in openThinking {
        var thinking := openThinking[index];
        openThinking := openThinking - {index};
        var signature := Lookup(thinkingSignatures, index, "");
        thinkingSignatures := thinkingSignatures - {index};
        pendingThinking := pendingThinking + [(thinking, signature)];
      }
    }

    method OnEvent(parse: JsonParser, event: SseEvent)
      modifies this
      ensures Value() == OnSse(parse, old(Value()), event)
    {
      match event {
        case ContentBlockStart(index, StartToolUse(id, name)) =>
          openToolUse := openToolUse[index := (id, name)];
          toolUseInputs := toolUseInputs[id := ""];
        case ContentBlockStart(_, StartText(text)) =>
          if text != "" {
            emitted := emitted + [TextDelta(text)];
          }
        case ContentBlockStart(index, StartThinking(thinking)) =>
          openThinking := openThinking[index := thinking];
        case ContentBlockDelta(_, TextFragment(text)) =>
          emitted := emitted + [TextDelta(text)];
        case ContentBlockDelta(index, InputFragment(json)) =>
          if index in openToolUse {
            var (callId, name) := openToolUse[index];
            toolUseInputs := toolUseInputs[callId := Lookup(toolUseInputs, callId, "") + json];
            emitted := emitted + [ToolCallDelta(callId, name, json)];
          }
        case ContentBlockDelta(index, ThinkingFragment(thinking)) =>
          openThinking := openThinking[index := Lookup(openThinking, index, "") + thinking];
        case ContentBlockDelta(index, SignatureFragment(signature)) =>
          thinkingSignatures := thinkingSignatures[index := signature];
        case ContentBlockStop(index) =>
          OnStop(parse, index);
        case MessageDelta =>
          emitted := emitted + [UsageDelta];
        case _ =>
      }
    }

    method OnEvents(parse: JsonParser, events: seq<SseEvent>)
      modifies this
      ensures Value() == FoldAll(parse, old(Value()), events)
    {
      for i := 0 to |events|
        invariant FoldAll(parse, old(Value()), events) == FoldAll(parse, Value(), events[i..])
      {
        OnEvent(parse, events[i]);
        assert events[i..][1..] == events[i + 1..];
      }
    }
  }

  // ------------------------------------------------------------------
  // The adapter and the collector agree
  // ------------------------------------------------------------------

  /** Tool blocks open at free indices under ids never used before. */
  predicate WellFormed(events: seq<SseEvent>, open: set<nat>, used: set<string>)
    decreases |events|
  {
    events != [] ==>
      && (Opens(events[0]) ==> events[0].index !in open && events[0].start.id !in used)
      && WellFormed(events[1..], NextOpen(events[0], open), NextUsed(events[0], used))
  }

  predicate Opens(event: SseEvent) {
    event.ContentBlockStart? && event.start.StartToolUse?
  }

  function NextOpen(event: SseEvent, open: set<nat>): set<nat> {
    if Opens(event) then open + {event.index} else if event.ContentBlockStop? then open - {event.index} else open
  }

  function NextUsed(event: SseEvent, used: set<string>): set<string> {
    if Opens(event) then used + {event.start.id} else used
  }

  /** The ids used once a stream is over. */
  function UsedAfter(events: seq<SseEvent>, used: set<string>): (after: set<string>)
    ensures used <= after
    decreases |events|
  {
    if events == [] then used else UsedAfter(events[1..], NextUsed(events[0], used))
  }

  /** A completed call is remembered exactly as completed, or not at all if malformed. */
  predicate RememberedAsCompleted(registry: Registry, call: ToolCallRequest) {
    if call.malformed then call.callId !in registry
    else call.callId in registry
         && registry[call.callId].name == call.capabilityName && registry[call.callId].input == call.arguments
  }

  predicate CompletedAs(completed: seq<ToolCallRequest>, callId: string) {
    exists call :: call in completed && call.callId == callId && !call.malformed
  }

  /** An open block and the collector's buffer for it hold the same call. */
  predicate SameBuffer(f: Folded, c: Collected, index: nat)
    requires index in f.open
  {
    var (callId, name) := f.open[index];
    && callId in f.inputs && callId !in f.registry
    && (if callId in c.pending then c.pending[callId] == Pending(name, f.inputs[callId]) else f.inputs[callId] == "")
  }

  /** Which ids live where: open blocks, pending buffers, completed calls. */
  ghost predicate Tracked(known: Registry, used: set<string>, f: Folded, c: Collected) {
    && known.Keys <= f.registry.Keys <= used && (forall id :: id in known ==> f.registry[id] == known[id])
    && (forall i :: i in f.open ==> f.open[i].0 in used && SameBuffer(f, c, i))
    && (forall i, j :: i in f.open && j in f.open && i != j ==> f.open[i].0 != f.open[j].0)
    && (forall call :: call in c.completed ==>
          call.callId in used && forall i :: i in f.open ==> f.open[i].0 != call.callId)
    && (forall id :: id in c.pending ==> id in used)
  }

  ghost predicate Agree(known: Registry, registry: Registry, completed: seq<ToolCallRequest>) {
    && (forall call :: call in completed ==> RememberedAsCompleted(registry, call))
    && (forall id :: id in registry && id !in known ==> CompletedAs(completed, id))
  }

  lemma {:induction false} CollectAppend(parse: JsonParser, c: Collected, events: seq<StreamEvent>, event: StreamEvent)
    ensures Collect(parse, c, events + [event]) == AfterEvent(parse, Collect(parse, c, events), event)
    decreases |events|
  {
    if events == [] {
      assert ([] + [event])[1..] == [];
    } else {
      assert (events + [event])[1..] == events[1..] + [event];
      CollectAppend(parse, AfterEvent(parse, c, events[0]), events[1..], event);
    }
  }

  /** The collector's state after what a fold has forwarded. */
  function Observed(parse: JsonParser, f: Folded): Collected {
    Collect(parse, NOTHING_COLLECTED, f.emitted)
  }

  ghost predicate Linked(known: Registry, used: set<string>, f: Folded, c: Collected) {
    Tracked(known, used, f, c) && Agree(known, f.registry, c.completed)
  }

  /** The collector hears of every forwarded event. */
  lemma Forwarding(parse: JsonParser, f: Folded, g: Folded, event: StreamEvent)
    requires g.emitted == f.emitted + [event]
    ensures Observed(parse, g) == AfterEvent(parse, Observed(parse, f), event)
  {
    CollectAppend(parse, NOTHING_COLLECTED, f.emitted, event);
  }

  lemma OpenAgrees(
    parse: JsonParser, known: Registry, used: set<string>, f: Folded, c: Collected, index: nat, id: string,
    name: string)
    requires index !in f.open && id !in used && Linked(known, used, f, c)
    ensures Linked(known, used + {id}, OnSse(parse, f, ContentBlockStart(index, StartToolUse(id, name))), c)
  {
    assert forall i :: i in f.open ==> SameBuffer(f, c, i);
  }

  lemma FragmentAgrees(
    parse: JsonParser, known: Registry, used: set<string>, f: Folded, c: Collected, index: nat, json: string)
    requires index in f.open && Linked(known, used, f, c)
    ensures var (callId, name) := f.open[index];
            Linked(known, used, OnSse(parse, f, ContentBlockDelta(index, InputFragment(json))),
                   AfterEvent(parse, c, ToolCallDelta(callId, name, json)))
  {
    assert forall i :: i in f.open ==> SameBuffer(f, c, i);
    assert "" + json == json;
  }

  lemma CloseTracks(parse: JsonParser, known: Registry, used: set<string>, f: Folded, c: Collected, index: nat)
    requires index in f.open && Tracked(known, used, f, c)
    ensures Tracked(known, used, CloseToolUse(parse, f, index), AfterEvent(parse, c, ToolCallComplete(f.open[index].0)))
  {
    var g := CloseToolUse(parse, f, index);
    var d := AfterEvent(parse, c, ToolCallComplete(f.open[index].0));
    assert SameBuffer(f, c, index);
    forall i | i in g.open ensures g.open[i].0 in used && SameBuffer(g, d, i) {
      OthersKeepTheirBuffer(parse, known, used, f, c, index, i);
    }
  }

  lemma OthersKeepTheirBuffer(
    parse: JsonParser, known: Registry, used: set<string>, f: Folded, c: Collected, index: nat, i: nat)
    requires index in f.open && i in f.open && i != index && Tracked(known, used, f, c)
    ensures i in CloseToolUse(parse, f, index).open
    ensures SameBuffer(CloseToolUse(parse, f, index), AfterEvent(parse, c, ToolCallComplete(f.open[index].0)), i)
  {
    assert SameBuffer(f, c, i) && f.open[i].0 != f.open[index].0;
  }

  lemma CompletingAgrees(
    known: Registry, registry: Registry, completed: seq<ToolCallRequest>, call: ToolCallRequest,
    thinking: seq<(string, string)>)
    requires Agree(known, registry, completed) && call.callId !in registry
    requires forall other :: other in completed ==> other.callId != call.callId
    ensures call.malformed ==> Agree(known, registry, completed + [call])
    ensures !call.malformed ==>
              Agree(known, registry[call.callId := Remembered(call.capabilityName, call.arguments, thinking)],
                completed + [call])
  {
    var more := completed + [call];
    assert call in more;
    assert forall other :: other in more <==> other in completed || other == call;
    forall id | CompletedAs(completed, id) ensures CompletedAs(more, id) {
      var other :| other in completed && other.callId == id && !other.malformed;
      assert other in more;
    }
    assert !call.malformed ==> CompletedAs(more, call.callId);
  }

  lemma CloseRemembers(parse: JsonParser, known: Registry, used: set<string>, f: Folded, c: Collected, index: nat)
    requires parse("") == None && index in f.open && Linked(known, used, f, c)
    ensures Agree(known, CloseToolUse(parse, f, index).registry,
                  AfterEvent(parse, c, ToolCallComplete(f.open[index].0)).completed)
  {
    var callId := f.open[index].0;
    assert SameBuffer(f, c, index);
    if callId in c.pending {
      CompletingAgrees(known, f.registry, c.completed, Finish(parse, callId, c.pending[callId]), f.pendingThinking);
    }
  }

  predicate TouchesTools(f: Folded, event: SseEvent) {
    || Opens(event)
    || (event.ContentBlockDelta? && event.delta.InputFragment? && event.index in f.open)
    || (event.ContentBlockStop? && event.index in f.open)
  }

  lemma OtherEventsKeepCalls(parse: JsonParser, f: Folded, event: SseEvent)
    requires !TouchesTools(f, event)
    ensures var g := OnSse(parse, f, event);
            && (g.open, g.inputs, g.registry) == (f.open, f.inputs, f.registry)
            && Observed(parse, g).pending == Observed(parse, f).pending
            && Observed(parse, g).completed == Observed(parse, f).completed
  {
    var g := OnSse(parse, f, event);
    OtherEventsForward(parse, f, event);
    if Forwarded(event) != [] {
      Forwarding(parse, f, g, Forwarded(event)[0]);
    }
  }

  /** What an event that is no tool block's forwards to the loop. */
  function Forwarded(event: SseEvent): (events: seq<StreamEvent>)
    ensures |events| <= 1 && forall forwarded | forwarded in events :: forwarded.TextDelta? || forwarded.UsageDelta?
  {
    match event
    case ContentBlockStart(_, StartText(text)) => if text == "" then [] else [TextDelta(text)]
    case ContentBlockDelta(_, TextFragment(text)) => [TextDelta(text)]
    case MessageDelta => [UsageDelta]
    case _ => []
  }

  lemma OtherEventsForward(parse: JsonParser, f: Folded, event: SseEvent)
    requires !TouchesTools(f, event)
    ensures var g := OnSse(parse, f, event);
            && (g.open, g.inputs, g.registry) == (f.open, f.inputs, f.registry)
            && g.emitted == f.emitted + Forwarded(event)
  {
    assert f.emitted + [] == f.emitted;
  }

  lemma LinkedFrame(known: Registry, used: set<string>, f: Folded, c: Collected, g: Folded, d: Collected)
    requires Linked(known, used, f, c)
    requires (g.open, g.inputs, g.registry) == (f.open, f.inputs, f.registry)
    requires d.pending == c.pending && d.completed == c.completed
    ensures Linked(known, used, g, d)
  {
    assert forall i :: i in f.open ==> SameBuffer(f, c, i);
  }

  lemma StepAgrees(parse: JsonParser, known: Registry, used: set<string>, f: Folded, event: SseEvent)
    requires parse("") == None && (Opens(event) ==> event.index !in f.open && event.start.id !in used)
    requires Linked(known, used, f, Observed(parse, f))
    ensures var g := OnSse(parse, f, event);
            g.open.Keys == NextOpen(event, f.open.Keys) && Linked(known, NextUsed(event, used), g, Observed(parse, g))
  {
    if Opens(event) {
      OpenAgrees(parse, known, used, f, Observed(parse, f), event.index, event.start.id, event.start.name);
      assert OnSse(parse, f, event).emitted == f.emitted;
    } else if event.ContentBlockDelta? && event.delta.InputFragment? && event.index in f.open {
      FragmentStep(parse, known, used, f, event.index, event.delta.json);
    } else if event.ContentBlockStop? && event.index in f.open {
      CloseStep(parse, known, used, f, event.index);
    } else {
      OtherEventsKeepCalls(parse, f, event);
      LinkedFrame(known, used, f, Observed(parse, f), OnSse(parse, f, event), Observed(parse, OnSse(parse, f, event)));
    }
  }

  lemma FragmentStep(parse: JsonParser, known: Registry, used: set<string>, f: Folded, index: nat, json: string)
    requires index in f.open && Linked(known, used, f, Observed(parse, f))
    ensures var g := OnSse(parse, f, ContentBlockDelta(index, InputFragment(json)));
            g.open == f.open && Linked(known, used, g, Observed(parse, g))
  {
    var g := OnSse(parse, f, ContentBlockDelta(index, InputFragment(json)));
    FragmentAgrees(parse, known, used, f, Observed(parse, f), index, json);
    Forwarding(parse, f, g, ToolCallDelta(f.open[index].0, f.open[index].1, json));
  }

  lemma CloseStep(parse: JsonParser, known: Registry, used: set<string>, f: Folded, index: nat)
    requires parse("") == None && index in f.open && Linked(known, used, f, Observed(parse, f))
    ensures var g := CloseToolUse(parse, f, index);
            g.open.Keys == f.open.Keys - {index} && Linked(known, used, g, Observed(parse, g))
  {
    CloseTracks(parse, known, used, f, Observed(parse, f), index);
    CloseRemembers(parse, known, used, f, Observed(parse, f), index);
    Forwarding(parse, f, CloseToolUse(parse, f, index), ToolCallComplete(f.open[index].0));
  }

  lemma {:induction false} FoldAgrees(
    parse: JsonParser, known: Registry, used: set<string>, f: Folded, events: seq<SseEvent>)
    requires parse("") == None && WellFormed(events, f.open.Keys, used)
    requires Linked(known, used, f, Observed(parse, f))
    ensures var g := FoldAll(parse, f, events);
            && Linked(known, UsedAfter(events, used), g, Observed(parse, g))
            && Agree(known, g.registry, Observed(parse, g).completed)
            && forall id :: id in known ==> id in g.registry && g.registry[id] == known[id]
    decreases |events|
  {
    if events != [] {
      StepAgrees(parse, known, used, f, events[0]);
      FoldAgrees(parse, known, NextUsed(events[0], used), OnSse(parse, f, events[0]), events[1..]);
    }
  }

  /** On a well-formed stream of fresh ids, the adapter remembers a call exactly when
      the collector completes it as well-formed JSON, under the same name and with the
      same input, and forgets nothing it knew. */
  lemma AdapterRemembersWhatTheLoopSees(parse: JsonParser, known: Registry, events: seq<SseEvent>)
    requires parse("") == None && WellFormed(events, {}, known.Keys)
    ensures var g := FoldAll(parse, StartOfStream(known), events);
            && Agree(known, g.registry, Observed(parse, g).completed)
            && forall id :: id in known ==> id in g.registry && g.registry[id] == known[id]
  {
    var f := StartOfStream(known);
    assert f.open.Keys == {};
    FoldAgrees(parse, known, known.Keys, f, events);
  }

  // ------------------------------------------------------------------
  // The calls of a stream are new
  // ------------------------------------------------------------------

  /** Open blocks and completed calls go under ids not used before, each call under its own. */
  ghost predicate NewCalls(base: set<string>, f: Folded, c: Collected) {
    && (forall i :: i in f.open ==> f.open[i].0 !in base)
    && (forall call :: call in c.completed ==> call.callId !in base)
    && (forall i, j :: 0 <= i < j < |c.completed| ==> c.completed[i].callId != c.completed[j].callId)
  }

  lemma CloseIsNew(parse: JsonParser, known: Registry, base: set<string>, used: set<string>, f: Folded, index: nat)
    requires index in f.open && Tracked(known, used, f, Observed(parse, f)) && NewCalls(base, f, Observed(parse, f))
    ensures var g := CloseToolUse(parse, f, index); NewCalls(base, g, Observed(parse, g))
  {
    Forwarding(parse, f, CloseToolUse(parse, f, index), ToolCallComplete(f.open[index].0));
  }

  lemma StepIsNew(parse: JsonParser, known: Registry, base: set<string>, used: set<string>, f: Folded, event: SseEvent)
    requires (Opens(event) ==> event.start.id !in used) && base <= used
    requires Tracked(known, used, f, Observed(parse, f)) && NewCalls(base, f, Observed(parse, f))
    ensures var g := OnSse(parse, f, event); NewCalls(base, g, Observed(parse, g))
  {
    var g := OnSse(parse, f, event);
    if Opens(event) {
      assert g.emitted == f.emitted;
    } else if event.ContentBlockDelta? && event.delta.InputFragment? && event.index in f.open {
      Forwarding(parse, f, g, ToolCallDelta(f.open[event.index].0, f.open[event.index].1, event.delta.json));
    } else if event.ContentBlockStop? && event.index in f.open {
      CloseIsNew(parse, known, base, used, f, event.index);
    } else {
      OtherEventsKeepCalls(parse, f, event);
    }
  }

  /** On a well-formed stream every completed call has an id of its own, used by none before. */
  lemma {:induction false} StreamedCallsAreNew(
    parse: JsonParser, known: Registry, base: set<string>, used: set<string>, f: Folded, events: seq<SseEvent>)
    requires parse("") == None && WellFormed(events, f.open.Keys, used) && base <= used
    requires Linked(known, used, f, Observed(parse, f)) && NewCalls(base, f, Observed(parse, f))
    ensures var g := FoldAll(parse, f, events); NewCalls(base, g, Observed(parse, g))
    decreases |events|
  {
    if events != [] {
      var g := OnSse(parse, f, events[0]);
      StepAgrees(parse, known, used, f, events[0]);
      StepIsNew(parse, known, base, used, f, events[0]);
      StreamedCallsAreNew(parse, known, base, NextUsed(events[0], used), g, events[1..]);
    }
  }

  /** Serializing a parsed value and parsing it again gives the same value. */
  ghost predicate RoundTrips(parse: JsonParser) {
    forall text: string :: parse(text).Some? ==> parse(parse(text).value.text) == parse(text)
  }

  /** Arguments are what their text parses to, or null when what was streamed did not parse. */
  ghost predicate Reparse(parse: JsonParser, calls: seq<ToolCallRequest>) {
    forall call | call in calls ::
      if call.malformed then call.arguments == JSON_NULL else parse(call.arguments.text) == Some(call.arguments)
  }

  lemma {:induction false} CollectedArgumentsReparse(parse: JsonParser, c: Collected, events: seq<StreamEvent>)
    requires RoundTrips(parse) && Reparse(parse, c.completed)
    ensures Reparse(parse, Collect(parse, c, events).completed)
    decreases |events|
  {
    if events != [] {
      CollectedArgumentsReparse(parse, AfterEvent(parse, c, events[0]), events[1..]);
    }
  }

  /** So the registry is faithful to the assistant turn the loop records: a replayed
      call goes out with the name and the arguments the model streamed. */
  lemma StreamedCallsReplayFaithfully(parse: JsonParser, known: Registry, events: seq<SseEvent>, call: ToolCallRequest)
    requires parse("") == None && RoundTrips(parse) && WellFormed(events, {}, known.Keys)
    requires call in Observed(parse, FoldAll(parse, StartOfStream(known), events)).completed && !call.malformed
    ensures var registry := FoldAll(parse, StartOfStream(known), events).registry;
            call.callId in registry && registry[call.callId].name == call.capabilityName
            && registry[call.callId].input == InputOf(parse, call.arguments.text)
  {
    AdapterRemembersWhatTheLoopSees(parse, known, events);
    CollectedArgumentsReparse(parse, NOTHING_COLLECTED, FoldAll(parse, StartOfStream(known), events).emitted);
  }
}
