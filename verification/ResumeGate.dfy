/** Why the contract lets a life begin only on a journal that is ready (docs/contracts/agent-loop.md,
    lines 127-142; crates/familiar-ai-agent/src/raw_runtime.rs, lines 515-540 and 1136-1163). */
module ResumeGate {
  import opened Wrappers
  import opened Transcript
  import opened ToolCalls
  import opened ToolJournal
  import opened StreamCollector
  import opened AgentLoop
  import opened ResumeSafety

  // The loop itself does not ask, and on the in-memory reference journal, which takes every intent
  // it is given, it can repeat a destructive call. The module DurableJournal shows what the journal
  // of the shipped host does instead.

  // ------------------------------------------------------------------
  // A life that executes one given call id
  // ------------------------------------------------------------------

  /** A text the loop's parser reads as the arguments of a command. */
  datatype Command = Command(parse: JsonParser, text: string, arguments: Json) {

    predicate Valid() {
      && parse(text) == Some(arguments)
      && ArgumentsFit(Canonical(RunCommand), arguments)
      && Utf8Length(arguments.text) <= Canonical(RunCommand).maxPayloadBytes
    }

    function Configuration(): Config {
      Config(parse, {RunCommand}, 1, None, false, false, "", "")
    }

    function Request(callId: string): ToolCallRequest {
      ToolCallRequest(callId, Name(RunCommand), arguments, false)
    }

    function Events(callId: string): seq<StreamEvent> {
      [ToolCallDelta(callId, Name(RunCommand), text), ToolCallComplete(callId)]
    }

    /** One answered turn that requests the command under the given id; it is authorized. */
    function Once(callId: string, death: Death): Life {
      var outcome := SubmitOutcome(AdapterStop.ToolUse, Usage(None), None);
      Life(Configuration(), [TurnScript(false, Answered(Events(callId), outcome), [CommandScript(death)])])
    }
  }

  function CommandIntent(callId: string): Intent {
    Intent(callId, RunCommand, Destructive)
  }

  function CommandScript(death: Death): CallScript {
    CallScript(Authorized, ExecutionResult.Finished("", ""), death, Works)
  }

  lemma CommandIsCollected(command: Command, callId: string)
    requires command.Valid()
    ensures Collect(command.parse, NOTHING_COLLECTED, command.Events(callId))
            == Collected(None, map[], [command.Request(callId)])
  {
    var parse, delta, complete := command.parse, command.Events(callId)[0], command.Events(callId)[1];
    var pending := AfterEvent(parse, NOTHING_COLLECTED, delta);
    assert pending == Collected(None, map[callId := Pending(Name(RunCommand), "" + command.text)], []);
    assert "" + command.text == command.text;
    var done := AfterEvent(parse, pending, complete);
    assert done.pending == map[];
    assert [delta, complete][1..] == [complete] && [complete][1..] == [];
    assert Collect(parse, pending, [complete]) == Collect(parse, done, []);
  }

  lemma CommandIsValid(command: Command, callId: string)
    requires command.Valid()
    ensures Validate(command.Request(callId), {RunCommand})
            == Success(ValidatedCall(callId, RunCommand, command.arguments))
  {
    NamesParseBack(Name(RunCommand));
  }

  /** A life that requests the command does with the journal what serving its one call does. */
  lemma OnceServesTheCall(command: Command, w: World, callId: string, death: Death)
    requires command.Valid()
    ensures Ungated(w, command.Once(callId, death))
            == AfterCall(command.Configuration(), w, command.Request(callId), CommandScript(death))
  {
    var life, call, script := command.Once(callId, death), command.Request(callId), CommandScript(death);
    CommandIsCollected(command, callId);
    OneCallIsTheBatch(command.Configuration(), w.journal, call, script);
    IterateTakesBatch(w.journal, life, ServeCalls(life.config, FreshBatch(w.journal), [call], [script]));
  }

  lemma OneCallIsTheBatch(config: Config, journal: Journal, call: ToolCallRequest, script: CallScript)
    ensures var b := ServeCalls(config, FreshBatch(journal), [call], [script]);
            var e := ServeCall(config, journal, call, script);
            b.journal == e.journal && b.trace == e.trace && b.died == e.outcome.None?
  {
    var next := ServeOne(config, FreshBatch(journal), call, script);
    assert [call][1..] == [] && [script][1..] == [];
    assert ServeCalls(config, next, [], []) == next;
    assert [] + ServeCall(config, journal, call, script).trace == ServeCall(config, journal, call, script).trace;
  }

  /** The journal takes every intent it is given, so without a result the command is executed. */
  lemma CommandIsExecuted(command: Command, w: World, callId: string, death: Death)
    requires command.Valid() && (death == Survives || death == InExecution)
    requires !w.journal.HasResult(callId) && w.journal.TakesIntent(callId, Works)
    ensures var intent := CommandIntent(callId);
            var after := Ungated(w, command.Once(callId, death));
            && after.trace == w.trace + [IntentRecorded(intent), ExecutorInvoked(intent)]
                              + (if death == Survives then [ResultRecorded(callId, Succeeded(""))] else [])
            && (death == InExecution ==> after.journal == w.journal.WithIntent(intent))
  {
    OnceServesTheCall(command, w, callId, death);
    CommandIsValid(command, callId);
    var intent := CommandIntent(callId);
    var served := Execute(w.journal, intent, CommandScript(death));
    assert ServeCall(command.Configuration(), w.journal, command.Request(callId), CommandScript(death)) == served;
    assert served.trace == [IntentRecorded(intent), ExecutorInvoked(intent)]
                           + (if death == Survives then [ResultRecorded(callId, Succeeded(""))] else []);
  }

  /** The one pass of such a life submits, serves its one batch, and no script is left after it. */
  lemma IterateTakesBatch(journal: Journal, life: Life, b: BatchEffect)
    requires life.config.maxIterations == 1 && life.config.maxOutputTokens.None? && |life.scripts| == 1
    requires !life.scripts[0].cancelled && life.scripts[0].submission.Answered?
    requires CallsServed(life.config, life.scripts[0]) != []
    requires b == ServeCalls(life.config, FreshBatch(journal),
                             CallsServed(life.config, life.scripts[0]), life.scripts[0].calls)
    ensures var (end, _) := Run(life.config, journal, life.scripts);
            end.journal == b.journal && end.trace == b.trace
    ensures b.died ==> Iterate(life.config, InitialState(journal), life.scripts[0]).1 == Some(Died)
  {
    var s, script := InitialState(journal), life.scripts[0];
    var calls := CallsServed(life.config, script);
    var collected := Collect(life.config.parse, NOTHING_COLLECTED, script.submission.events);
    assert CeilingStop(life.config, s).None? && collected.completed == calls;
    var received := Received(Submitted(life.config, s), collected, script.submission.outcome);
    assert received.journal == journal && received.trace == [];
    var (next, ending) := Iterate(life.config, s, script);
    assert next == Served(received, calls, b);
    assert [] + b.trace == b.trace;
    OnePassIsTheRun(life, journal);
  }

  lemma OnePassIsTheRun(life: Life, journal: Journal)
    requires |life.scripts| == 1
    ensures Run(life.config, journal, life.scripts).0 == Iterate(life.config, InitialState(journal), life.scripts[0]).0
  {
    assert life.scripts[1..] == [];
    var next := Iterate(life.config, InitialState(journal), life.scripts[0]).0;
    assert Loop(life.config, next, life.scripts[1..]) == (next, Died);
  }

  /** On the in-memory journal a second life begun without the gate repeats the destructive
      call the first died in. */
  lemma UngatedSecondLifeRepeats(command: Command, callId: string)
    requires command.Valid()
    ensures var first := Ungated(NEW_WORLD, command.Once(callId, InExecution));
            var second := Ungated(first, command.Once(callId, Survives));
            Safe(first) && !Settled(first.journal) && !DestructiveAtMostOnce(second.trace)
  {
    var first := Ungated(NEW_WORLD, command.Once(callId, InExecution));
    NothingOpenIsSafe(NEW_WORLD, command.Once(callId, InExecution));
    CommandIsExecuted(command, NEW_WORLD, callId, InExecution);
    assert first.trace[1] == ExecutorInvoked(CommandIntent(callId));
    assert first.journal.intents[0] == CommandIntent(callId) && InDoubt(first.journal, CommandIntent(callId));
    OpenIsRepeated(command, first, 1);
  }

  lemma OpenIsRepeated(command: Command, w: World, k: nat)
    requires command.Valid() && !w.journal.durable && k < |w.trace| && LeftOpen(w, w.trace[k])
    ensures !DestructiveAtMostOnce(Ungated(w, command.Once(w.trace[k].call.callId, Survives)).trace)
  {
    var callId := w.trace[k].call.callId;
    CommandIsExecuted(command, w, callId, Survives);
    var trace := Ungated(w, command.Once(callId, Survives)).trace;
    assert trace[k] == w.trace[k];
    assert Executes(trace[|w.trace| + 1], callId);
  }

  // ------------------------------------------------------------------
  // The gate, exactly
  // ------------------------------------------------------------------

  /** Some life whose model can request the command breaks the promises from here. */
  ghost predicate SomeLifeBreaks(command: Command, w: World) {
    exists life: Life :: life.config.parse == command.parse && !Safe(Ungated(w, life))
  }

  /** From a safe world some life breaks the promises exactly when a destructive call was
      executed there and has no result. */
  lemma UngatedBreaksExactly(command: Command, w: World)
    requires command.Valid() && Safe(w)
    ensures SomeLifeBreaks(command, w) <==> exists event :: event in w.trace && LeftOpen(w, event)
  {
    if event :| event in w.trace && LeftOpen(w, event) {
      var k :| 0 <= k < |w.trace| && w.trace[k] == event;
      OpenIsRepeated(command, w, k);
      assert !Safe(Ungated(w, command.Once(event.call.callId, Survives)));
    } else {
      forall life ensures Safe(Ungated(w, life)) {
        NothingOpenIsSafe(w, life);
      }
    }
  }

  /** The journal cannot tell whether a recorded intent was executed: for every journal
      that is not ready there is a safe past in which it was. */
  function Intents(intents: seq<Intent>): (events: seq<Event>)
    ensures |events| == |intents| && forall i :: 0 <= i < |intents| ==> events[i] == IntentRecorded(intents[i])
  {
    seq(|intents|, i requires 0 <= i < |intents| => IntentRecorded(intents[i]))
  }

  ghost function AnyResult(results: map<string, JournalResult>): (callId: string)
    requires results != map[]
    ensures callId in results
  {
    var callId :| callId in results;
    callId
  }

  ghost function Results(results: map<string, JournalResult>): (events: seq<Event>)
    ensures forall event | event in events :: event.ResultRecorded?
    decreases |results|
  {
    if results == map[] then []
    else
      var callId := AnyResult(results);
      Results(results - {callId}) + [ResultRecorded(callId, results[callId])]
  }

  /** A past in which every intent of the journal was recorded, and the nth was executed. */
  ghost function Announced(journal: Journal, n: nat): seq<Event>
    requires n < |journal.intents|
  {
    Intents(journal.intents[..n + 1]) + [ExecutorInvoked(journal.intents[n])] + Intents(journal.intents[n + 1..])
  }

  ghost function PastOf(journal: Journal, n: nat): seq<Event>
    requires n < |journal.intents|
  {
    Announced(journal, n) + Results(journal.results)
  }

  lemma LastIntentLast(intents: seq<Intent>)
    requires intents != []
    ensures Intents(intents) == Intents(intents[..|intents| - 1]) + [IntentRecorded(intents[|intents| - 1])]
  {
  }

  lemma {:induction false} ReplayIntents(trace: seq<Event>, intents: seq<Intent>)
    ensures Replay(trace + Intents(intents)) == Replay(trace).(intents := Replay(trace).intents + intents)
    decreases |intents|
  {
    if intents == [] {
      assert trace + Intents(intents) == trace && Replay(trace).intents + intents == Replay(trace).intents;
    } else {
      var front, last := intents[..|intents| - 1], intents[|intents| - 1];
      ReplayIntents(trace, front);
      LastIntentLast(intents);
      RegroupEvents(trace, Intents(front), IntentRecorded(last));
      ReplayStep(trace + Intents(front), IntentRecorded(last));
      AppendLast(Replay(trace).intents, intents);
    }
  }

  lemma RegroupEvents(a: seq<Event>, b: seq<Event>, last: Event)
    ensures a + (b + [last]) == (a + b) + [last]
  {
  }

  lemma AppendLast(before: seq<Intent>, intents: seq<Intent>)
    requires intents != []
    ensures before + intents[..|intents| - 1] + [intents[|intents| - 1]] == before + intents
  {
  }

  lemma {:induction false} ReplayResults(trace: seq<Event>, results: map<string, JournalResult>)
    ensures Replay(trace + Results(results)) == Replay(trace).(results := Replay(trace).results + results)
    decreases |results|
  {
    if results == map[] {
      assert trace + Results(results) == trace;
      assert Replay(trace).results + results == Replay(trace).results;
    } else {
      var callId := AnyResult(results);
      var rest := Results(results - {callId});
      var last := ResultRecorded(callId, results[callId]);
      ReplayResults(trace, results - {callId});
      RegroupEvents(trace, rest, last);
      ReplayStep(trace + rest, last);
      MergeOneMore(Replay(trace).results, results, callId);
    }
  }

  lemma MergeOneMore<K, V>(before: map<K, V>, more: map<K, V>, key: K)
    requires key in more
    ensures (before + (more - {key}))[key := more[key]] == before + more
  {
  }

  lemma AnnouncedReplays(journal: Journal, n: nat)
    requires n < |journal.intents|
    ensures Replay(Announced(journal, n)) == Journal(false, journal.intents, map[])
  {
    var first, rest := journal.intents[..n + 1], journal.intents[n + 1..];
    IntentsReplay(first);
    ReplayStep(Intents(first), ExecutorInvoked(journal.intents[n]));
    ReplayIntents(Intents(first) + [ExecutorInvoked(journal.intents[n])], rest);
    SplitIntents(journal.intents, n + 1);
  }

  lemma {:induction false} IntentsReplay(intents: seq<Intent>)
    ensures Replay(Intents(intents)) == Journal(false, intents, map[])
  {
    if intents != [] {
      var front, last := intents[..|intents| - 1], intents[|intents| - 1];
      IntentsReplay(front);
      LastIntentLast(intents);
      ReplayStep(Intents(front), IntentRecorded(last));
      assert front + [last] == intents;
    }
  }

  lemma SplitIntents(intents: seq<Intent>, n: nat)
    requires n <= |intents|
    ensures intents[..n] + intents[n..] == intents
  {
  }

  lemma PastReplays(journal: Journal, n: nat)
    requires n < |journal.intents| && !journal.durable
    ensures Replay(PastOf(journal, n)) == journal
  {
    AnnouncedReplays(journal, n);
    ReplayResults(Announced(journal, n), journal.results);
    assert map[] + journal.results == journal.results;
  }

  lemma PastIsSafe(journal: Journal, n: nat)
    requires n < |journal.intents| && !journal.durable
    ensures Safe(World(journal, PastOf(journal, n)))
  {
    var trace := PastOf(journal, n);
    PastReplays(journal, n);
    forall i | 0 <= i < |trace|
      ensures trace[i].ExecutorInvoked? <==> i == n + 1
      ensures trace[i].ResultRecorded? ==> i > n + 1
    {
      PastAt(journal, n, i);
    }
    PastAt(journal, n, n);
    PastAt(journal, n, n + 1);
  }

  lemma PastAt(journal: Journal, n: nat, i: nat)
    requires n < |journal.intents| && i < |PastOf(journal, n)|
    ensures i <= n ==> PastOf(journal, n)[i] == IntentRecorded(journal.intents[i])
    ensures i == n + 1 ==> PastOf(journal, n)[i] == ExecutorInvoked(journal.intents[n])
    ensures i > n + 1 ==> PastOf(journal, n)[i].IntentRecorded? || PastOf(journal, n)[i].ResultRecorded?
  {
    var announced, results := Announced(journal, n), Results(journal.results);
    if i >= |announced| {
      assert PastOf(journal, n)[i] == results[i - |announced|] && results[i - |announced|] in results;
    } else {
      assert PastOf(journal, n)[i] == announced[i];
    }
  }

  /** The gate asks exactly what must be asked: on a ready journal every life is safe
      whatever its past, and on any other some past and some life break the promises. */
  lemma GateIsExact(command: Command, journal: Journal)
    requires command.Valid() && !journal.durable
    ensures (exists w: World :: w.journal == journal && Safe(w) && SomeLifeBreaks(command, w)) <==> !Settled(journal)
  {
    if Settled(journal) {
      forall w: World | w.journal == journal && Safe(w) ensures !SomeLifeBreaks(command, w) {
        SettledIsSteady(w);
        forall life ensures Safe(Ungated(w, life)) {
          NothingOpenIsSafe(w, life);
        }
      }
    } else {
      var intent :| intent in journal.intents && InDoubt(journal, intent);
      var n :| 0 <= n < |journal.intents| && journal.intents[n] == intent;
      var w := World(journal, PastOf(journal, n));
      PastIsSafe(journal, n);
      assert w.trace[n + 1] == ExecutorInvoked(intent);
      assert LeftOpen(w, w.trace[n + 1]);
      UngatedBreaksExactly(command, w);
      assert w.journal == journal && Safe(w) && SomeLifeBreaks(command, w);
    }
  }

  // ------------------------------------------------------------------
  // The gate on pasts that gated lives leave
  // ------------------------------------------------------------------

  /** The same call, but a process that died right after the intent died executing instead. */
  function Later(script: CallScript): CallScript {
    if script.death == AfterIntent then script.(death := InExecution) else script
  }

  function LaterCalls(scripts: seq<CallScript>): (later: seq<CallScript>)
    ensures |later| == |scripts| && forall i :: 0 <= i < |scripts| ==> later[i] == Later(scripts[i])
  {
    seq(|scripts|, i requires 0 <= i < |scripts| => Later(scripts[i]))
  }

  function LaterTurns(scripts: seq<TurnScript>): (later: seq<TurnScript>)
    ensures |later| == |scripts|
    ensures forall i :: 0 <= i < |scripts| ==> later[i] == scripts[i].(calls := LaterCalls(scripts[i].calls))
  {
    seq(|scripts|, i requires 0 <= i < |scripts| => scripts[i].(calls := LaterCalls(scripts[i].calls)))
  }

  function LaterLives(lives: seq<Life>): (later: seq<Life>)
    ensures |later| == |lives|
    ensures forall i :: 0 <= i < |lives| ==> later[i] == lives[i].(scripts := LaterTurns(lives[i].scripts))
  {
    seq(|lives|, i requires 0 <= i < |lives| => lives[i].(scripts := LaterTurns(lives[i].scripts)))
  }

  /** Dying later changes what happened, not what the journal or the run can tell. */
  lemma {:induction false} ServesAlike(
    config: Config, b: BatchEffect, c: BatchEffect, calls: seq<ToolCallRequest>, scripts: seq<CallScript>)
    requires b.(trace := []) == c.(trace := [])
    ensures ServeCalls(config, b, calls, scripts).(trace := [])
            == ServeCalls(config, c, calls, LaterCalls(scripts)).(trace := [])
    decreases |calls|
  {
    if !b.died && calls != [] && scripts != [] {
      assert LaterCalls(scripts)[1..] == LaterCalls(scripts[1..]);
      ServesAlike(config, ServeOne(config, b, calls[0], scripts[0]),
                  ServeOne(config, c, calls[0], Later(scripts[0])), calls[1..], scripts[1..]);
    }
  }

  lemma IteratesAlike(config: Config, s: LoopState, t: LoopState, script: TurnScript)
    requires s.(trace := []) == t.(trace := [])
    ensures var (next, ending) := Iterate(config, s, script);
            var (later, laterEnding) := Iterate(config, t, script.(calls := LaterCalls(script.calls)));
            next.(trace := []) == later.(trace := []) && ending == laterEnding
  {
    var batch := FreshBatch(s.journal);
    ServesAlike(config, batch, batch, CallsServed(config, script), script.calls);
  }

  lemma {:induction false} LoopsAlike(config: Config, s: LoopState, t: LoopState, scripts: seq<TurnScript>)
    requires s.(trace := []) == t.(trace := [])
    ensures Loop(config, s, scripts).0.journal == Loop(config, t, LaterTurns(scripts)).0.journal
    decreases |scripts|
  {
    if scripts != [] {
      IteratesAlike(config, s, t, scripts[0]);
      assert LaterTurns(scripts)[1..] == LaterTurns(scripts[1..]);
      var (next, ending) := Iterate(config, s, scripts[0]);
      if ending.None? {
        LoopsAlike(config, next, Iterate(config, t, LaterTurns(scripts)[0]).0, scripts[1..]);
      }
    }
  }

  lemma {:induction false} HistoriesAlike(w: World, x: World, lives: seq<Life>)
    requires w.journal == x.journal
    ensures History(w, lives).journal == History(x, LaterLives(lives)).journal
    decreases |lives|
  {
    if lives != [] {
      LoopsAlike(lives[0].config, InitialState(w.journal), InitialState(x.journal), lives[0].scripts);
      assert LaterLives(lives)[1..] == LaterLives(lives[1..]);
      HistoriesAlike(Live(w, lives[0]), Live(x, LaterLives(lives)[0]), lives[1..]);
    }
  }

  /** Every recorded intent was executed at once. */
  ghost predicate CarriedOut(w: World) {
    forall i :: 0 <= i < |w.trace| && w.trace[i].IntentRecorded? ==>
      i + 1 < |w.trace| && w.trace[i + 1] == ExecutorInvoked(w.trace[i].intent)
  }

  predicate NotBetween(script: CallScript) {
    script.death != AfterIntent
  }

  lemma EachCallIsCarriedOut()
    ensures EachCallKeeps(CarriedOut, CarriedOut, NotBetween)
  {
    forall config: Config, w: World, call: ToolCallRequest, script: CallScript | CarriedOut(w) && NotBetween(script)
      ensures KeptBy(CarriedOut, CarriedOut, config, w, call, script)
    {
      CallIsCarriedOut(config, w, call, script);
    }
  }

  lemma CallIsCarriedOut(config: Config, w: World, call: ToolCallRequest, script: CallScript)
    requires CarriedOut(w) && NotBetween(script)
    ensures CarriedOut(AfterCall(config, w, call, script))
  {
    var e := ServeCall(config, w.journal, call, script);
    assert CarriedOut(World(e.journal, e.trace));
  }

  lemma {:induction false} LaterLivesCarryOut(w: World, lives: seq<Life>)
    requires CarriedOut(w)
    ensures CarriedOut(History(w, LaterLives(lives)))
    decreases |lives|
  {
    if lives != [] {
      var later := LaterLives(lives);
      assert later[1..] == LaterLives(lives[1..]);
      if Settled(w.journal) {
        EachCallIsCarriedOut();
        LifeKeeps(CarriedOut, CarriedOut, NotBetween, w, later[0]);
      }
      LaterLivesCarryOut(Live(w, later[0]), lives[1..]);
    }
  }

  lemma {:induction false} ReplayHoldsOnlyRecorded(trace: seq<Event>, intent: Intent)
    requires intent in Replay(trace).intents
    ensures exists k :: 0 <= k < |trace| && trace[k] == IntentRecorded(intent)
  {
    var last := trace[|trace| - 1];
    if last != IntentRecorded(intent) {
      ReplayHoldsOnlyRecorded(trace[..|trace| - 1], intent);
      var k :| 0 <= k < |trace| - 1 && trace[..|trace| - 1][k] == IntentRecorded(intent);
      assert trace[k] == IntentRecorded(intent);
    }
  }

  /** Some past that gated lives leave, with this journal, can be broken by a life begun
      without the gate. */
  ghost predicate SomePastBreaks(command: Command, journal: Journal) {
    exists lives :: History(NEW_WORLD, lives).journal == journal && SomeLifeBreaks(command, History(NEW_WORLD, lives))
  }

  /** The same among pasts that really occur: of the journals gated lives leave, exactly the
      ones that are not ready have such a past that a further life can break. */
  lemma GateIsExactOnHistories(command: Command, lives: seq<Life>)
    requires command.Valid()
    ensures var journal := History(NEW_WORLD, lives).journal;
            SomePastBreaks(command, journal) <==> !Settled(journal)
  {
    var journal := History(NEW_WORLD, lives).journal;
    EveryHistoryIsSafe(lives);
    GateIsExact(command, journal);
    forall past ensures Safe(History(NEW_WORLD, past)) {
      EveryHistoryIsSafe(past);
    }
    if !Settled(journal) {
      var later := LaterLives(lives);
      var w := History(NEW_WORLD, later);
      HistoriesAlike(NEW_WORLD, NEW_WORLD, lives);
      LaterLivesCarryOut(NEW_WORLD, lives);
      UnreadyIsBroken(command, w);
      assert History(NEW_WORLD, later).journal == journal;
    }
  }

  lemma UnreadyIsBroken(command: Command, w: World)
    requires command.Valid() && Safe(w) && CarriedOut(w) && !Settled(w.journal)
    ensures SomeLifeBreaks(command, w)
  {
    var intent :| intent in w.journal.intents && InDoubt(w.journal, intent);
    ReplayHoldsOnlyRecorded(w.trace, intent);
    var k :| 0 <= k < |w.trace| && w.trace[k] == IntentRecorded(intent);
    assert LeftOpen(w, w.trace[k + 1]);
    UngatedBreaksExactly(command, w);
  }
}
