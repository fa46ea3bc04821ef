/** What the journal of the shipped host guarantees (055_agent_runtime.sql, lines 24-63;
    agent_runtime.rs, lines 218-265 and 1238-1295; raw_runtime.rs, lines 1136-1163). */
module DurableJournal {
  import opened Wrappers
  import opened Transcript
  import opened ToolCalls
  import opened ToolJournal
  import opened StreamCollector
  import opened AgentLoop
  import opened ResumeSafety
  import opened ResumeGate

  // A call id is unique in the table of intents, so a second intent for it is refused, and the
  // loop ends the process rather than execute a call whose intent was refused.

  const NEW_DURABLE := World(EMPTY_DURABLE, [])

  /** One life, begun with or without asking whether the journal is ready. */
  datatype Start = Start(gated: bool, life: Life)

  ghost function Begin(w: World, start: Start): World {
    if start.gated then Live(w, start.life) else Ungated(w, start.life)
  }

  ghost function Lives(w: World, starts: seq<Start>): World
    decreases |starts|
  {
    if starts == [] then w else Lives(Begin(w, starts[0]), starts[1..])
  }

  /** What each served call keeps, any lives keep. */
  lemma {:induction false} LivesKeep(promise: World -> bool, w: World, starts: seq<Start>)
    requires EachCallKeeps(promise, promise, _ => true) && promise(w)
    ensures promise(Lives(w, starts))
    decreases |starts|
  {
    if starts != [] {
      LifeKeeps(promise, promise, _ => true, w, starts[0].life);
      LivesKeep(promise, Begin(w, starts[0]), starts[1..]);
    }
  }

  // ------------------------------------------------------------------
  // The promises
  // ------------------------------------------------------------------

  /** No call id is executed twice, whatever its side effect. */
  ghost predicate AtMostOnce(trace: seq<Event>) {
    forall k, i :: 0 <= k < i < |trace| && trace[k].ExecutorInvoked? ==> !Executes(trace[i], trace[k].call.callId)
  }

  ghost predicate IntentsDiffer(trace: seq<Event>) {
    forall k, i :: 0 <= k < i < |trace| && trace[k].IntentRecorded? && trace[i].IntentRecorded? ==>
      trace[k].intent.callId != trace[i].intent.callId
  }

  /** Every result comes right after the execution it is the result of. */
  ghost predicate ResultsFollow(trace: seq<Event>) {
    forall i :: 0 <= i < |trace| && trace[i].ResultRecorded? ==> i > 0 && Executes(trace[i - 1], trace[i].callId)
  }

  ghost predicate Orderly(w: World) {
    && w.journal.durable && w.journal.(durable := false) == Replay(w.trace)
    && TraceOrderly(w.trace)
  }

  ghost predicate TraceOrderly(trace: seq<Event>) {
    WriteAhead(trace) && ResultsFollow(trace) && IntentsDiffer(trace)
  }

  /** Each execution has its own intent, and each result its own execution. */
  lemma OrderlyRunsOnce(w: World)
    requires Orderly(w)
    ensures AtMostOnce(w.trace) && DoneIsDone(w.trace)
  {
    forall k, i | 0 <= k < i < |w.trace| && w.trace[k].ExecutorInvoked?
      ensures !Executes(w.trace[i], w.trace[k].call.callId)
    {
      if w.trace[i].ExecutorInvoked? {
        assert w.trace[k - 1] == IntentRecorded(w.trace[k].call) && w.trace[i - 1] == IntentRecorded(w.trace[i].call);
      }
    }
    forall k, i | 0 <= k < i < |w.trace| && w.trace[k].ResultRecorded?
      ensures !Executes(w.trace[i], w.trace[k].callId)
    {
      assert Executes(w.trace[k - 1], w.trace[k].callId);
    }
  }

  // ------------------------------------------------------------------
  // One call
  // ------------------------------------------------------------------

  /** An intent the journal takes, its execution and its result, cut short where the process
      died or the result was lost. */
  predicate InOrder(journal: Journal, e: CallEffect, intent: Intent, result: JournalResult, storage: Storage) {
    var intended, invoked := journal.WithIntent(intent), [IntentRecorded(intent), ExecutorInvoked(intent)];
    && journal.TakesIntent(intent.callId, storage)
    && (|| (e.journal, e.trace) == (intended, [IntentRecorded(intent)])
        || (e.journal, e.trace) == (intended, invoked)
        || (e.journal, e.trace)
           == (intended.WithResult(intent.callId, result), invoked + [ResultRecorded(intent.callId, result)]))
  }

  lemma ServedInOrder(config: Config, journal: Journal, call: ToolCallRequest, script: CallScript)
    ensures var e := ServeCall(config, journal, call, script);
            || (e.journal == journal && e.trace == [])
            || exists intent: Intent ::
                 intent.callId == call.callId && InOrder(journal, e, intent, ResultOf(script.execution), script.storage)
  {
    var e := ServeCall(config, journal, call, script);
    if e.trace != [] {
      var intent := IntentFor(Validate(call, config.offered).value);
      assert InOrder(journal, e, intent, ResultOf(script.execution), script.storage);
    }
  }

  lemma CallIsOrderly(config: Config, w: World, call: ToolCallRequest, script: CallScript)
    requires Orderly(w)
    ensures Orderly(AfterCall(config, w, call, script))
  {
    var e, result := ServeCall(config, w.journal, call, script), ResultOf(script.execution);
    ServedInOrder(config, w.journal, call, script);
    if e.journal == w.journal && e.trace == [] {
      assert w.trace + e.trace == w.trace;
    } else {
      var intent: Intent :| intent.callId == call.callId && InOrder(w.journal, e, intent, result, script.storage);
      OrderlyExtends(w, e, intent, result, script.storage);
    }
  }

  lemma OrderlyExtends(w: World, e: CallEffect, intent: Intent, result: JournalResult, storage: Storage)
    requires Orderly(w) && InOrder(w.journal, e, intent, result, storage)
    ensures Orderly(World(e.journal, w.trace + e.trace))
  {
    var intended := w.trace + [IntentRecorded(intent)];
    var invoked := intended + [ExecutorInvoked(intent)];
    ReplayStep(w.trace, IntentRecorded(intent));
    ReplayStep(intended, ExecutorInvoked(intent));
    ReplayStep(invoked, ResultRecorded(intent.callId, result));
    OneByOne(w.trace, IntentRecorded(intent), ExecutorInvoked(intent), ResultRecorded(intent.callId, result));
    IntentExtends(w, intent);
    ExecutionExtends(intended, intent);
    ResultExtends(invoked, intent, result);
  }

  lemma IntentExtends(w: World, intent: Intent)
    requires Orderly(w) && !w.journal.HasIntent(intent.callId)
    ensures TraceOrderly(w.trace + [IntentRecorded(intent)])
  {
    forall k: nat | k < |w.trace| && w.trace[k].IntentRecorded? ensures w.trace[k].intent.callId != intent.callId {
      ReplayKnowsIntents(w.trace, k);
    }
  }

  lemma ExecutionExtends(trace: seq<Event>, intent: Intent)
    requires TraceOrderly(trace) && trace != [] && trace[|trace| - 1] == IntentRecorded(intent)
    ensures TraceOrderly(trace + [ExecutorInvoked(intent)])
  {
  }

  lemma ResultExtends(trace: seq<Event>, intent: Intent, result: JournalResult)
    requires TraceOrderly(trace) && trace != [] && trace[|trace| - 1] == ExecutorInvoked(intent)
    ensures TraceOrderly(trace + [ResultRecorded(intent.callId, result)])
  {
  }

  /** Over any lives from an empty durable journal, begun with or without the gate and dying
      anywhere, every call id is executed at most once, right after its intent; none is executed
      once its result is recorded; and the journal holds what the trace recorded. */
  lemma EveryCallRunsAtMostOnce(starts: seq<Start>)
    ensures var w := Lives(NEW_DURABLE, starts);
            && AtMostOnce(w.trace) && WriteAhead(w.trace) && DoneIsDone(w.trace)
            && w.journal.(durable := false) == Replay(w.trace)
  {
    LivesAreOrderly(starts);
    OrderlyRunsOnce(Lives(NEW_DURABLE, starts));
  }

  lemma LivesAreOrderly(starts: seq<Start>)
    ensures Orderly(Lives(NEW_DURABLE, starts))
  {
    forall config: Config, w: World, call: ToolCallRequest, script: CallScript | Orderly(w)
      ensures KeptBy(Orderly, Orderly, config, w, call, script)
    {
      CallIsOrderly(config, w, call, script);
    }
    LivesKeep(Orderly, NEW_DURABLE, starts);
  }

  // ------------------------------------------------------------------
  // The price: an announced call never runs again
  // ------------------------------------------------------------------

  /** The id is announced, has a result exactly if `answered`, and nothing past the first n
      events executes it. */
  ghost predicate Spent(w: World, callId: string, answered: bool, n: nat) {
    && w.journal.durable && w.journal.HasIntent(callId) && (w.journal.HasResult(callId) <==> answered)
    && n <= |w.trace| && forall i :: n <= i < |w.trace| ==> !Executes(w.trace[i], callId)
  }

  lemma CallStaysSpent(
    config: Config, w: World, call: ToolCallRequest, script: CallScript, callId: string, answered: bool, n: nat)
    requires Spent(w, callId, answered, n)
    ensures Spent(AfterCall(config, w, call, script), callId, answered, n)
  {
    var e, result := ServeCall(config, w.journal, call, script), ResultOf(script.execution);
    ServedInOrder(config, w.journal, call, script);
    if e.journal != w.journal || e.trace != [] {
      var intent: Intent :| intent.callId == call.callId && InOrder(w.journal, e, intent, result, script.storage);
      assert call.callId != callId;
      StillAnnounced(w.journal, intent, callId);
    }
  }

  lemma StillAnnounced(journal: Journal, intent: Intent, callId: string)
    requires journal.HasIntent(callId)
    ensures journal.WithIntent(intent).HasIntent(callId)
  {
    var other :| other in journal.intents && other.callId == callId;
    assert other in journal.WithIntent(intent).intents;
  }

  /** An announced call whose result is missing never gets one, and is never executed again,
      whatever its side effect and however many lives follow. */
  lemma AnnouncedIsFinal(w: World, callId: string, starts: seq<Start>)
    requires w.journal.durable && w.journal.HasIntent(callId)
    ensures Spent(Lives(w, starts), callId, w.journal.HasResult(callId), |w.trace|)
  {
    var answered, n := w.journal.HasResult(callId), |w.trace|;
    var spent := (x: World) => Spent(x, callId, answered, n);
    forall config: Config, x: World, call: ToolCallRequest, script: CallScript | spent(x)
      ensures KeptBy(spent, spent, config, x, call, script)
    {
      CallStaysSpent(config, x, call, script, callId, answered, n);
    }
    LivesKeep(spent, w, starts);
  }

  /** Some further life with this parser executes the id. */
  ghost predicate CanStillRun(command: Command, w: World, callId: string) {
    exists life: Life :: life.config.parse == command.parse && ExecutesAfter(w, life, callId)
  }

  ghost predicate ExecutesAfter(w: World, life: Life, callId: string) {
    exists i :: |w.trace| <= i < |Ungated(w, life).trace| && Executes(Ungated(w, life).trace[i], callId)
  }

  /** After any lives, a further one can execute a call id exactly when it was never announced. */
  lemma RunsExactlyWhenUnannounced(command: Command, starts: seq<Start>, callId: string)
    requires command.Valid()
    ensures var w := Lives(NEW_DURABLE, starts);
            CanStillRun(command, w, callId) <==> !w.journal.HasIntent(callId)
  {
    var w := Lives(NEW_DURABLE, starts);
    LivesAreOrderly(starts);
    if w.journal.HasIntent(callId) {
      forall life: Life ensures !ExecutesAfter(w, life, callId) {
        AnnouncedIsFinal(w, callId, [Start(false, life)]);
        OneLife(w, life);
      }
    } else {
      UnannouncedIsUnanswered(w, callId);
      CommandIsExecuted(command, w, callId, Survives);
      var after := Ungated(w, command.Once(callId, Survives));
      assert Executes(after.trace[|w.trace| + 1], callId);
      assert ExecutesAfter(w, command.Once(callId, Survives), callId);
    }
  }

  lemma OneLife(w: World, life: Life)
    ensures Lives(w, [Start(false, life)]) == Ungated(w, life)
  {
    assert [Start(false, life)][1..] == [];
    assert Lives(Ungated(w, life), []) == Ungated(w, life);
  }

  lemma {:induction false} ReplayHoldsOnlyResults(trace: seq<Event>, callId: string)
    requires Replay(trace).HasResult(callId)
    ensures exists k :: 0 <= k < |trace| && trace[k].ResultRecorded? && trace[k].callId == callId
  {
    var last := trace[|trace| - 1];
    if !(last.ResultRecorded? && last.callId == callId) {
      ReplayHoldsOnlyResults(trace[..|trace| - 1], callId);
      var k :| 0 <= k < |trace| - 1 && trace[..|trace| - 1][k].ResultRecorded? && trace[k].callId == callId;
      assert trace[k].ResultRecorded?;
    }
  }

  lemma UnannouncedIsUnanswered(w: World, callId: string)
    requires Orderly(w) && !w.journal.HasIntent(callId)
    ensures !w.journal.HasResult(callId)
  {
    if w.journal.HasResult(callId) {
      ReplayHoldsOnlyResults(w.trace, callId);
      var k :| 0 <= k < |w.trace| && w.trace[k].ResultRecorded? && w.trace[k].callId == callId;
      assert Executes(w.trace[k - 1], callId) && w.trace[k - 2] == IntentRecorded(w.trace[k - 1].call);
      ReplayKnowsIntents(w.trace, k - 2);
    }
  }

  // ------------------------------------------------------------------
  // What a repeated intent does to the run
  // ------------------------------------------------------------------

  /** The id is announced and has no result. */
  predicate Stranded(journal: Journal, callId: string) {
    journal.HasIntent(callId) && !journal.HasResult(callId)
  }

  /** The call is authorized, storage works, and nothing else ends the process. */
  predicate Plain(script: CallScript) {
    script.decision == Authorized && script.death == Survives && script.storage == Works
  }

  lemma PlainCallEndsExactly(config: Config, journal: Journal, call: ToolCallRequest, script: CallScript)
    requires journal.durable && Plain(script)
    ensures var e := ServeCall(config, journal, call, script);
            && (e.outcome.None? <==> Validate(call, config.offered).Success? && Stranded(journal, call.callId))
            && (e.outcome.None? ==> e.journal == journal && e.trace == [])
  {
  }

  /** A call that is answered strands no id and frees none. */
  lemma PlainCallStrandsNone(
    config: Config, journal: Journal, call: ToolCallRequest, script: CallScript, callId: string)
    requires journal.durable && Plain(script) && ServeCall(config, journal, call, script).outcome.Some?
    ensures var after := ServeCall(config, journal, call, script).journal;
            after.durable && (Stranded(after, callId) <==> Stranded(journal, callId))
  {
    ServedInOrder(config, journal, call, script);
    PlainCallEndsExactly(config, journal, call, script);
    var after := ServeCall(config, journal, call, script).journal;
    if after != journal && journal.HasIntent(callId) {
      StillAnnounced(journal, IntentFor(Validate(call, config.offered).value), callId);
    }
  }

  /** Some valid call of the list is stranded. */
  ghost predicate SomeStranded(config: Config, journal: Journal, calls: seq<ToolCallRequest>) {
    exists call :: call in calls && Validate(call, config.offered).Success? && Stranded(journal, call.callId)
  }

  /** With working storage and every call authorized, a turn ends the process exactly when one
      of its valid calls was announced and left without a result, whatever its class: also one
      that the contract lets a host run again. */
  lemma {:induction false} TurnEndsExactly(
    config: Config, b: BatchEffect, calls: seq<ToolCallRequest>, scripts: seq<CallScript>)
    requires b.journal.durable && !b.died && |calls| <= |scripts|
    requires forall i :: 0 <= i < |calls| ==> Plain(scripts[i])
    ensures ServeCalls(config, b, calls, scripts).died <==> SomeStranded(config, b.journal, calls)
    decreases |calls|
  {
    if calls != [] {
      var next := ServeOne(config, b, calls[0], scripts[0]);
      PlainCallEndsExactly(config, b.journal, calls[0], scripts[0]);
      if next.died {
        assert ServeCalls(config, next, calls[1..], scripts[1..]) == next;
        assert calls[0] in calls;
      } else {
        forall callId: string
          ensures Stranded(next.journal, callId) <==> Stranded(b.journal, callId)
        {
          PlainCallStrandsNone(config, b.journal, calls[0], scripts[0], callId);
        }
        PlainCallStrandsNone(config, b.journal, calls[0], scripts[0], calls[0].callId);
        TurnEndsExactly(config, next, calls[1..], scripts[1..]);
        assert forall call :: call in calls <==> call == calls[0] || call in calls[1..];
      }
    }
  }

  /** The two lives that repeat a destructive call on the in-memory journal do not repeat it
      here: the second ends at its second intent and changes nothing. */
  lemma SecondLifeEndsAtItsIntent(command: Command, callId: string)
    requires command.Valid()
    ensures var again := command.Once(callId, Survives);
            var first := Ungated(NEW_DURABLE, command.Once(callId, InExecution));
            && first.trace == [IntentRecorded(CommandIntent(callId)), ExecutorInvoked(CommandIntent(callId))]
            && Iterate(again.config, InitialState(first.journal), again.scripts[0]).1 == Some(Died)
            && Ungated(first, again) == first
  {
    var again, intent := command.Once(callId, Survives), CommandIntent(callId);
    var first := Ungated(NEW_DURABLE, command.Once(callId, InExecution));
    var call, script := command.Request(callId), CommandScript(Survives);
    CommandIsExecuted(command, NEW_DURABLE, callId, InExecution);
    assert first.journal.intents[0] == intent && first.journal.HasIntent(callId);
    CommandIsValid(command, callId);
    PlainCallEndsExactly(again.config, first.journal, call, script);
    OnceServesTheCall(command, first, callId, Survives);
    CommandIsCollected(command, callId);
    OneCallIsTheBatch(again.config, first.journal, call, script);
    IterateTakesBatch(first.journal, again, ServeCalls(again.config, FreshBatch(first.journal), [call], [script]));
    assert first.trace + [] == first.trace;
  }
}
