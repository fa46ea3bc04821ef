/** The observer that buffers a streamed turn into text and complete tool calls
    (raw_runtime.rs, lines 774-832). */
module StreamCollector {
  import opened Wrappers
  import opened Transcript
  import opened ToolCalls

  datatype Pending = Pending(capabilityName: string, argumentsBuf: string)

  datatype Collected = Collected(
    text: Option<string>, pending: map<string, Pending>, completed: seq<ToolCallRequest>)

  const NOTHING_COLLECTED := Collected(None, map[], [])

  /** The request a finished argument stream amounts to. */
  function Finish(parse: JsonParser, callId: string, call: Pending): ToolCallRequest {
    match parse(call.argumentsBuf)
    case Some(arguments) => ToolCallRequest(callId, call.capabilityName, arguments, false)
    case None => ToolCallRequest(callId, call.capabilityName, JSON_NULL, true)
  }

  function AfterEvent(parse: JsonParser, c: Collected, event: StreamEvent): Collected {
    match event
    case TextDelta(delta) =>
      c.(text := Some((if c.text.Some? then c.text.value else "") + delta))
    case ToolCallDelta(callId, capabilityId, fragment) =>
      var entry := if callId in c.pending then c.pending[callId] else Pending("", "");
      var name := if entry.capabilityName == "" then capabilityId else entry.capabilityName;
      c.(pending := c.pending[callId := Pending(name, entry.argumentsBuf + fragment)])
    case ToolCallComplete(callId) =>
      if callId in c.pending then
        c.(pending := c.pending - {callId}, completed := c.completed + [Finish(parse, callId, c.pending[callId])])
      else c
    case UsageDelta => c
    case Stop => c
  }

  function Collect(parse: JsonParser, c: Collected, events: seq<StreamEvent>): Collected
    decreases |events|
  {
    if events == [] then c else Collect(parse, AfterEvent(parse, c, events[0]), events[1..])
  }

  class TurnCollector {
    var text: Option<string>
    var pendingCalls: map<string, Pending>
    var completedCalls: seq<ToolCallRequest>

    function Value(): Collected
      reads this
    {
      Collected(text, pendingCalls, completedCalls)
    }

    constructor ()
      ensures Value() == NOTHING_COLLECTED
    {
      text, pendingCalls, completedCalls := None, map[], [];
    }

    method OnEvent(parse: JsonParser, event: StreamEvent)
      modifies this
      ensures Value() == AfterEvent(parse, old(Value()), event)
    {
      match event
      case TextDelta(delta) =>
        if text.None? {
          text := Some("");
        }
        text := Some(text.value + delta);
      case ToolCallDelta(callId, capabilityId, fragment) =>
        if callId !in pendingCalls {
          pendingCalls := pendingCalls[callId := Pending("", "")];
        }
        var entry := pendingCalls[callId];
        if entry.capabilityName == "" {
          entry := entry.(capabilityName := capabilityId);
        }
        entry := entry.(argumentsBuf := entry.argumentsBuf + fragment);
        pendingCalls := pendingCalls[callId := entry];
      case ToolCallComplete(callId) =>
        if callId in pendingCalls {
          var call := pendingCalls[callId];
          pendingCalls := pendingCalls - {callId};
          match parse(call.argumentsBuf) {
            case Some(arguments) =>
              completedCalls := completedCalls + [ToolCallRequest(callId, call.capabilityName, arguments, false)];
            case None =>
              completedCalls := completedCalls + [ToolCallRequest(callId, call.capabilityName, JSON_NULL, true)];
          }
        }
      case UsageDelta =>
      case Stop =>
    }

    method Observe(parse: JsonParser, events: seq<StreamEvent>)
      modifies this
      ensures Value() == Collect(parse, old(Value()), events)
    {
      for i := 0 to |events|
        invariant Collect(parse, old(Value()), events) == Collect(parse, Value(), events[i..])
      {
        OnEvent(parse, events[i]);
        assert events[i..][1..] == events[i + 1..];
      }
    }
  }

  // ------------------------------------------------------------------
  // Demultiplexing: interleaved calls do not see each other
  // ------------------------------------------------------------------

  predicate Concerns(event: StreamEvent, callId: string) {
    (event.ToolCallDelta? && event.callId == callId) || (event.ToolCallComplete? && event.completedId == callId)
  }

  function EventsOf(events: seq<StreamEvent>, callId: string): seq<StreamEvent> {
    if events == [] then []
    else (if Concerns(events[0], callId) then [events[0]] else []) + EventsOf(events[1..], callId)
  }

  function CallsOf(calls: seq<ToolCallRequest>, callId: string): seq<ToolCallRequest> {
    if calls == [] then []
    else (if calls[0].callId == callId then [calls[0]] else []) + CallsOf(calls[1..], callId)
  }

  /** What one call id has to show for a stream of its own events: the requests it
      has completed, and the buffer still open, if any. This definition knows of no
      other call. */
  function OneCall(parse: JsonParser, callId: string, open: Option<Pending>, events: seq<StreamEvent>)
    : (result: (seq<ToolCallRequest>, Option<Pending>))
    decreases |events|
  {
    if events == [] then ([], open)
    else
      match events[0]
      case ToolCallDelta(_, capabilityId, fragment) =>
        var entry := if open.Some? then open.value else Pending("", "");
        var name := if entry.capabilityName == "" then capabilityId else entry.capabilityName;
        OneCall(parse, callId, Some(Pending(name, entry.argumentsBuf + fragment)), events[1..])
      case ToolCallComplete(_) =>
        var (rest, end) := OneCall(parse, callId, None, events[1..]);
        ((if open.Some? then [Finish(parse, callId, open.value)] else []) + rest, end)
      case _ => OneCall(parse, callId, open, events[1..])
  }

  function OpenCall(c: Collected, callId: string): Option<Pending> {
    if callId in c.pending then Some(c.pending[callId]) else None
  }

  lemma {:induction false} CallsOfAppend(a: seq<ToolCallRequest>, b: seq<ToolCallRequest>, callId: string)
    ensures CallsOf(a + b, callId) == CallsOf(a, callId) + CallsOf(b, callId)
  {
    if a == [] {
      assert a + b == b;
    } else {
      assert (a + b)[0] == a[0] && (a + b)[1..] == a[1..] + b;
      CallsOfAppend(a[1..], b, callId);
      var head := if a[0].callId == callId then [a[0]] else [];
      assert head + (CallsOf(a[1..], callId) + CallsOf(b, callId))
          == (head + CallsOf(a[1..], callId)) + CallsOf(b, callId);
    }
  }

  lemma OtherCallsDoNotInterfere(parse: JsonParser, c: Collected, event: StreamEvent, callId: string)
    requires !Concerns(event, callId)
    ensures var next := AfterEvent(parse, c, event);
            CallsOf(next.completed, callId) == CallsOf(c.completed, callId)
              && OpenCall(next, callId) == OpenCall(c, callId)
  {
    if event.ToolCallComplete? && event.completedId in c.pending {
      CallsOfAppend(c.completed, [Finish(parse, event.completedId, c.pending[event.completedId])], callId);
    }
  }

  lemma OwnEventsAct(parse: JsonParser, c: Collected, event: StreamEvent, callId: string)
    requires Concerns(event, callId)
    ensures var next := AfterEvent(parse, c, event);
            var (done, open) := OneCall(parse, callId, OpenCall(c, callId), [event]);
            CallsOf(next.completed, callId) == CallsOf(c.completed, callId) + done && OpenCall(next, callId) == open
  {
    assert [event][1..] == [];
    if event.ToolCallComplete? && callId in c.pending {
      CallsOfAppend(c.completed, [Finish(parse, callId, c.pending[callId])], callId);
    }
  }

  /** However calls interleave, what the collector completes and holds open for one
      id is what that id's own events amount to. */
  lemma {:induction false} StreamDemultiplexes(
    parse: JsonParser, c: Collected, events: seq<StreamEvent>, callId: string)
    ensures var end := Collect(parse, c, events);
            var (done, open) := OneCall(parse, callId, OpenCall(c, callId), EventsOf(events, callId));
            CallsOf(end.completed, callId) == CallsOf(c.completed, callId) + done && OpenCall(end, callId) == open
    decreases |events|
  {
    if events != [] {
      var event, own := events[0], EventsOf(events[1..], callId);
      var next := AfterEvent(parse, c, event);
      StreamDemultiplexes(parse, next, events[1..], callId);
      if Concerns(event, callId) {
        OwnEventsAct(parse, c, event, callId);
        OneCallAppend(parse, callId, OpenCall(c, callId), [event], own);
      } else {
        OtherCallsDoNotInterfere(parse, c, event, callId);
        assert EventsOf(events, callId) == own;
      }
    }
  }

  lemma {:induction false} OneCallAppend(
    parse: JsonParser, callId: string, open: Option<Pending>, first: seq<StreamEvent>, rest: seq<StreamEvent>)
    ensures var (done, middle) := OneCall(parse, callId, open, first);
            var (more, end) := OneCall(parse, callId, middle, rest);
            OneCall(parse, callId, open, first + rest) == (done + more, end)
    decreases |first|
  {
    if first == [] {
      assert first + rest == rest;
      assert [] + OneCall(parse, callId, open, rest).0 == OneCall(parse, callId, open, rest).0;
    } else {
      assert (first + rest)[1..] == first[1..] + rest;
      match first[0]
      case ToolCallDelta(_, capabilityId, fragment) =>
        var entry := if open.Some? then open.value else Pending("", "");
        var name := if entry.capabilityName == "" then capabilityId else entry.capabilityName;
        OneCallAppend(parse, callId, Some(Pending(name, entry.argumentsBuf + fragment)), first[1..], rest);
      case ToolCallComplete(_) =>
        OneCallAppend(parse, callId, None, first[1..], rest);
        var (done, middle) := OneCall(parse, callId, None, first[1..]);
        var head := if open.Some? then [Finish(parse, callId, open.value)] else [];
        assert head + (done + OneCall(parse, callId, middle, rest).0)
               == head + done + OneCall(parse, callId, middle, rest).0;
      case _ => OneCallAppend(parse, callId, open, first[1..], rest);
    }
  }

  /** The arguments carried by a run of deltas, concatenated. */
  function Fragments(deltas: seq<StreamEvent>): string
    requires forall event | event in deltas :: event.ToolCallDelta?
  {
    if deltas == [] then "" else deltas[0].fragment + Fragments(deltas[1..])
  }

  /** The first name a call is given; an empty one does not stick. */
  function FirstName(name: string, deltas: seq<StreamEvent>): string
    requires forall event | event in deltas :: event.ToolCallDelta?
    decreases |deltas|
  {
    if name != "" || deltas == [] then name else FirstName(deltas[0].capabilityId, deltas[1..])
  }

  /** From one completion of a call to the next, its arguments are exactly the
      fragments that arrived in between, joined in order. */
  lemma {:induction false} ArgumentsAreJoinedFragments(
    parse: JsonParser, callId: string, open: Option<Pending>, deltas: seq<StreamEvent>, rest: seq<StreamEvent>)
    requires forall event | event in deltas :: event.ToolCallDelta?
    requires open.Some? || deltas != []
    ensures var entry := if open.Some? then open.value else Pending("", "");
            var joined := Pending(FirstName(entry.capabilityName, deltas), entry.argumentsBuf + Fragments(deltas));
            var (more, end) := OneCall(parse, callId, None, rest);
            OneCall(parse, callId, open, deltas + [ToolCallComplete(callId)] + rest)
            == ([Finish(parse, callId, joined)] + more, end)
    decreases |deltas|
  {
    var events := deltas + [ToolCallComplete(callId)] + rest;
    var entry := if open.Some? then open.value else Pending("", "");
    if deltas == [] {
      assert events[1..] == rest;
      assert entry.argumentsBuf + Fragments(deltas) == entry.argumentsBuf;
    } else {
      assert events[1..] == deltas[1..] + [ToolCallComplete(callId)] + rest;
      var name := if entry.capabilityName == "" then deltas[0].capabilityId else entry.capabilityName;
      var next := Pending(name, entry.argumentsBuf + deltas[0].fragment);
      ArgumentsAreJoinedFragments(parse, callId, Some(next), deltas[1..], rest);
      assert next.argumentsBuf + Fragments(deltas[1..]) == entry.argumentsBuf + Fragments(deltas);
      assert FirstName(entry.capabilityName, deltas) == FirstName(name, deltas[1..]);
    }
  }

  function TextDeltas(events: seq<StreamEvent>): seq<string> {
    if events == [] then []
    else (if events[0].TextDelta? then [events[0].delta] else []) + TextDeltas(events[1..])
  }

  function Joined(texts: seq<string>): string {
    if texts == [] then "" else texts[0] + Joined(texts[1..])
  }

  /** A text with more texts behind it; nothing with nothing behind it stays nothing. */
  function Extended(text: Option<string>, more: seq<string>): Option<string> {
    if more == [] then text else Some((if text.Some? then text.value else "") + Joined(more))
  }

  lemma ExtendedTwice(text: Option<string>, delta: string, rest: seq<string>)
    ensures Extended(Some((if text.Some? then text.value else "") + delta), rest) == Extended(text, [delta] + rest)
  {
    var before := if text.Some? then text.value else "";
    assert ([delta] + rest)[1..] == rest;
    assert (before + delta) + Joined(rest) == before + (delta + Joined(rest));
    assert rest == [] ==> delta + Joined(rest) == delta;
  }

  /** The turn's text is its text deltas joined in order, whatever lies between them;
      without any there is none. */
  lemma {:induction false} TextIsJoinedDeltas(parse: JsonParser, c: Collected, events: seq<StreamEvent>)
    ensures Collect(parse, c, events).text == Extended(c.text, TextDeltas(events))
    decreases |events|
  {
    if events != [] {
      TextIsJoinedDeltas(parse, AfterEvent(parse, c, events[0]), events[1..]);
      if events[0].TextDelta? {
        ExtendedTwice(c.text, events[0].delta, TextDeltas(events[1..]));
      } else {
        assert TextDeltas(events) == TextDeltas(events[1..]);
      }
    }
  }
}
