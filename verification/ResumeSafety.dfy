/** What the contract's write-ahead journal guarantees over any sequence of runs, each of
    which may die between any two of its steps, and each of which starts only when the
    journal is ready to be resumed. The journal is the reference one, which takes every
    intent it is given; the module DurableJournal is about the one that does not. */
module ResumeSafety {
  import opened Wrappers
  import opened Transcript
  import opened ToolCalls
  import opened ToolJournal
  import opened StreamCollector
  import opened AgentLoop

  /** One life of an execution: a configuration and what its environment answered. */
  datatype Life = Life(config: Config, scripts: seq<TurnScript>)

  /** The journal and everything that was ever recorded or executed. */
  datatype World = World(journal: Journal, trace: seq<Event>)

  const NEW_WORLD := World(EMPTY_JOURNAL, [])

  /** A life begun without asking whether the journal is ready. */
  function Ungated(w: World, life: Life): World {
    var (end, _) := Run(life.config, w.journal, life.scripts);
    World(end.journal, w.trace + end.trace)
  }

  /** A life begins only on a settled journal, which is what readiness means. */
  ghost function Live(w: World, life: Life): World {
    if Settled(w.journal) then Ungated(w, life) else w
  }

  ghost function History(w: World, lives: seq<Life>): World
    decreases |lives|
  {
    if lives == [] then w else History(Live(w, lives[0]), lives[1..])
  }

  /** The gate and the loop as the contract for resuming hosts puts them together. No host
      of this repository does: the modules ResumeGate and DurableJournal say what that means. */
  method ResumeAndRun(life: Life, journal: JournalStore, trace: seq<Event>) returns (extended: seq<Event>)
    modifies journal
    ensures World(journal.Value(), extended) == Live(World(old(journal.Value()), trace), life)
  {
    var readiness := journal.ResumeReadiness();
    extended := trace;
    if readiness == Ready {
      var end, ending := RunLoop(life.config, journal, life.scripts);
      extended := trace + end.trace;
    }
  }

  // ------------------------------------------------------------------
  // The promises
  // ------------------------------------------------------------------

  /** The journal holds exactly what the trace recorded. */
  function Replay(trace: seq<Event>): (journal: Journal)
    ensures !journal.durable
  {
    if trace == [] then EMPTY_JOURNAL
    else Effect(Replay(trace[..|trace| - 1]), trace[|trace| - 1])
  }

  function Effect(journal: Journal, event: Event): Journal {
    match event
    case IntentRecorded(intent) => journal.WithIntent(intent)
    case ResultRecorded(callId, result) => journal.WithResult(callId, result)
    case ExecutorInvoked(_) => journal
  }

  predicate Executes(event: Event, callId: string) {
    event.ExecutorInvoked? && event.call.callId == callId
  }

  /** Every execution comes right after the durable intent that announces it. */
  ghost predicate WriteAhead(trace: seq<Event>) {
    forall i :: 0 <= i < |trace| && trace[i].ExecutorInvoked? ==> i > 0 && trace[i - 1] == IntentRecorded(trace[i].call)
  }

  /** Once a call has a result it is never executed again. */
  ghost predicate DoneIsDone(trace: seq<Event>) {
    forall k, i :: 0 <= k < i < |trace| && trace[k].ResultRecorded? ==> !Executes(trace[i], trace[k].callId)
  }

  /** Once a destructive call has been executed, its id is never executed again. */
  ghost predicate DestructiveAtMostOnce(trace: seq<Event>) {
    forall k, i :: 0 <= k < i < |trace| && trace[k].ExecutorInvoked? && trace[k].call.effect == Destructive ==>
      !Executes(trace[i], trace[k].call.callId)
  }

  ghost predicate Safe(w: World) {
    && w.journal == Replay(w.trace)
    && WriteAhead(w.trace)
    && DoneIsDone(w.trace)
    && DestructiveAtMostOnce(w.trace)
  }

  // ------------------------------------------------------------------
  // What the journal remembers of a trace
  // ------------------------------------------------------------------

  lemma {:induction false} ReplayKnowsResults(trace: seq<Event>, k: nat)
    requires k < |trace| && trace[k].ResultRecorded?
    ensures Replay(trace).HasResult(trace[k].callId)
  {
    if k < |trace| - 1 {
      ReplayKnowsResults(trace[..|trace| - 1], k);
    }
  }

  lemma {:induction false} ReplayKnowsIntents(trace: seq<Event>, k: nat)
    requires k < |trace| && trace[k].IntentRecorded?
    ensures trace[k].intent in Replay(trace).intents
  {
    if k < |trace| - 1 {
      ReplayKnowsIntents(trace[..|trace| - 1], k);
    } else {
      var intents := Replay(trace).intents;
      assert intents[|intents| - 1] == trace[k].intent;
    }
  }

  lemma ReplayStep(trace: seq<Event>, event: Event)
    ensures Replay(trace + [event]) == Effect(Replay(trace), event)
  {
    assert (trace + [event])[..|trace|] == trace;
  }

  // ------------------------------------------------------------------
  // One call
  // ------------------------------------------------------------------

  /** A destructive call that was executed and has no result. */
  predicate LeftOpen(w: World, event: Event) {
    event.ExecutorInvoked? && event.call.effect == Destructive && !w.journal.HasResult(event.call.callId)
  }

  /** Between calls of a live run the world is safe and no executed destructive call is open. */
  ghost predicate Steady(w: World) {
    Safe(w) && forall event | event in w.trace :: !LeftOpen(w, event)
  }

  /** A ready journal leaves nothing open: what was executed had its intent recorded. */
  lemma SettledIsSteady(w: World)
    requires Safe(w) && Settled(w.journal)
    ensures Steady(w)
  {
    forall k: nat | k < |w.trace| && w.trace[k].ExecutorInvoked? ensures !LeftOpen(w, w.trace[k]) {
      ReplayKnowsIntents(w.trace, k - 1);
      assert !InDoubt(w.journal, w.trace[k].call);
    }
  }

  lemma RecordingIntentIsSafe(w: World, intent: Intent)
    requires Safe(w)
    ensures Safe(World(w.journal.WithIntent(intent), w.trace + [IntentRecorded(intent)]))
  {
    ReplayStep(w.trace, IntentRecorded(intent));
  }

  lemma RecordingResultIsSafe(w: World, callId: string, result: JournalResult)
    requires Safe(w)
    ensures Safe(World(w.journal.WithResult(callId, result), w.trace + [ResultRecorded(callId, result)]))
  {
    ReplayStep(w.trace, ResultRecorded(callId, result));
  }

  /** Invoking the executor is safe when the intent was just recorded, the call has
      no result, and no destructive call was left open before the intent. */
  lemma InvokingIsSafe(w: World, intent: Intent)
    requires Steady(w) && !w.journal.HasResult(intent.callId)
    ensures var intended := World(w.journal.WithIntent(intent), w.trace + [IntentRecorded(intent)]);
            Safe(World(intended.journal, intended.trace + [ExecutorInvoked(intent)]))
  {
    var intended := World(w.journal.WithIntent(intent), w.trace + [IntentRecorded(intent)]);
    RecordingIntentIsSafe(w, intent);
    ReplayStep(intended.trace, ExecutorInvoked(intent));
    forall k: nat | k < |w.trace|
      ensures w.trace[k].ResultRecorded? ==> w.trace[k].callId != intent.callId
      ensures w.trace[k].ExecutorInvoked? && w.trace[k].call.effect == Destructive ==>
                w.trace[k].call.callId != intent.callId
    {
      if w.trace[k].ResultRecorded? {
        ReplayKnowsResults(w.trace, k);
      }
      assert !LeftOpen(w, w.trace[k]);
    }
    NewExecutionIsSafe(w.trace, intent);
  }

  /** An id that neither has a result nor was executed destructively may be executed next. */
  lemma NewExecutionIsSafe(trace: seq<Event>, intent: Intent)
    requires WriteAhead(trace) && DoneIsDone(trace) && DestructiveAtMostOnce(trace)
    requires forall k :: 0 <= k < |trace| && trace[k].ResultRecorded? ==> trace[k].callId != intent.callId
    requires forall k :: 0 <= k < |trace| && trace[k].ExecutorInvoked? && trace[k].call.effect == Destructive ==>
               trace[k].call.callId != intent.callId
    ensures var after := trace + [IntentRecorded(intent)] + [ExecutorInvoked(intent)];
            WriteAhead(after) && DoneIsDone(after) && DestructiveAtMostOnce(after)
  {
  }

  lemma ExecutingIsSafe(w: World, intent: Intent, script: CallScript)
    requires Steady(w) && !w.journal.HasResult(intent.callId)
    ensures var e := Execute(w.journal, intent, script);
            var after := World(e.journal, w.trace + e.trace);
            Safe(after) && (e.outcome.Some? ==> Steady(after))
  {
    StepsAreSafe(w, intent, ResultOf(script.execution));
    ExecuteStops(w.journal, intent, script);
    OneByOne(w.trace, IntentRecorded(intent), ExecutorInvoked(intent),
             ResultRecorded(intent.callId, ResultOf(script.execution)));
  }

  /** On the reference journal an execution stops after its intent, its invocation or its result. */
  lemma ExecuteStops(journal: Journal, intent: Intent, script: CallScript)
    requires !journal.durable
    ensures var e, result := Execute(journal, intent, script), ResultOf(script.execution);
            var intended, invoked := journal.WithIntent(intent), [IntentRecorded(intent), ExecutorInvoked(intent)];
            || e == CallEffect(intended, [IntentRecorded(intent)], false, None)
            || e == CallEffect(intended, invoked, false, None)
            || (e.journal, e.trace)
               == (intended.WithResult(intent.callId, result), invoked + [ResultRecorded(intent.callId, result)])
  {
  }

  /** The world is safe after the intent, after the executor's invocation and after the result. */
  lemma StepsAreSafe(w: World, intent: Intent, result: JournalResult)
    requires Steady(w) && !w.journal.HasResult(intent.callId)
    ensures var intended := w.journal.WithIntent(intent);
            var announced := w.trace + [IntentRecorded(intent)];
            var invoked := announced + [ExecutorInvoked(intent)];
            && Safe(World(intended, announced)) && Safe(World(intended, invoked))
            && Steady(World(intended.WithResult(intent.callId, result),
                          invoked + [ResultRecorded(intent.callId, result)]))
  {
    RecordingIntentIsSafe(w, intent);
    InvokingIsSafe(w, intent);
    RecordingResultIsSafe(World(w.journal.WithIntent(intent),
                                w.trace + [IntentRecorded(intent)] + [ExecutorInvoked(intent)]), intent.callId, result);
    FinishedIsSteady(w, intent, result);
  }

  lemma OneByOne(trace: seq<Event>, first: Event, second: Event, third: Event)
    ensures trace + [first, second] == trace + [first] + [second]
    ensures trace + ([first, second] + [third]) == trace + [first] + [second] + [third]
  {
  }

  /** An executed call with its result leaves nothing open that was not open before. */
  lemma FinishedIsSteady(w: World, intent: Intent, result: JournalResult)
    requires forall event | event in w.trace :: !LeftOpen(w, event)
    ensures var trace := w.trace + [IntentRecorded(intent)] + [ExecutorInvoked(intent)]
                         + [ResultRecorded(intent.callId, result)];
            var after := World(w.journal.WithIntent(intent).WithResult(intent.callId, result), trace);
            forall event | event in trace :: !LeftOpen(after, event)
  {
  }

  /** The world after one call is served in it. */
  function AfterCall(config: Config, w: World, call: ToolCallRequest, script: CallScript): World {
    var e := ServeCall(config, w.journal, call, script);
    World(e.journal, w.trace + e.trace)
  }

  lemma ServedCallIsSafe(config: Config, w: World, call: ToolCallRequest, script: CallScript)
    requires Steady(w)
    ensures var after := AfterCall(config, w, call, script);
            Safe(after) && (ServeCall(config, w.journal, call, script).outcome.Some? ==> Steady(after))
  {
    assert w.trace + [] == w.trace;
    var validation := Validate(call, config.offered);
    if validation.Success? && !w.journal.HasResult(call.callId) {
      ExecutingIsSafe(w, IntentFor(validation.value), script);
    }
  }

  lemma ServedCallKeepsReady(config: Config, journal: Journal, call: ToolCallRequest, script: CallScript)
    requires !journal.durable && Settled(journal)
    ensures var e := ServeCall(config, journal, call, script); e.outcome.Some? ==> Settled(e.journal)
  {
    var validation := Validate(call, config.offered);
    if validation.Success? {
      ExecutingKeepsReady(journal, IntentFor(validation.value), script);
    }
  }

  lemma ExecutingKeepsReady(journal: Journal, intent: Intent, script: CallScript)
    requires !journal.durable && Settled(journal)
    ensures Execute(journal, intent, script).outcome.Some? ==> Settled(Execute(journal, intent, script).journal)
  {
    ExecuteStops(journal, intent, script);
  }

  /** Serving a call keeps the world safe, and steady unless the process died; a journal
      that was ready stays ready. */
  lemma ServingIsSafe(config: Config, w: World, call: ToolCallRequest, script: CallScript)
    requires Steady(w)
    ensures var after := AfterCall(config, w, call, script);
            var survived := ServeCall(config, w.journal, call, script).outcome.Some?;
            && Safe(after) && (survived ==> Steady(after))
            && (Settled(w.journal) && survived ==> Settled(after.journal))
  {
    ServedCallIsSafe(config, w, call, script);
    if Settled(w.journal) {
      ServedCallKeepsReady(config, w.journal, call, script);
    }
  }

  /** A death leaves the journal unready exactly when a destructive call was between
      its intent and its result. */
  lemma DeathBlocksExactlyWhenInDoubt(config: Config, journal: Journal, call: ToolCallRequest, script: CallScript)
    requires Settled(journal)
    ensures var e := ServeCall(config, journal, call, script);
            Settled(e.journal) <==>
              !(e.trace != [] && !e.trace[|e.trace| - 1].ResultRecorded?
                && Canonical(Validate(call, config.offered).value.capability).effect == Destructive)
  {
    var e := ServeCall(config, journal, call, script);
    if e.trace != [] {
      var intent := IntentFor(Validate(call, config.offered).value);
      assert e.trace[0] == IntentRecorded(intent);
      assert e.journal.intents[|journal.intents|] == intent;
      if !e.trace[|e.trace| - 1].ResultRecorded? && intent.effect == Destructive {
        assert InDoubt(e.journal, intent);
      }
    }
  }

  // ------------------------------------------------------------------
  // Turns, runs, lives
  // ------------------------------------------------------------------

  lemma Regroup(a: seq<Event>, b: seq<Event>, c: seq<Event>)
    ensures a + b + c == a + (b + c)
  {
  }

  /** What serving one call keeps, when its script is one of those allowed: `steady` while the
      process lives, and `safe` also when it died. */
  ghost predicate EachCallKeeps(steady: World -> bool, safe: World -> bool, allowed: CallScript -> bool) {
    && (forall w: World | steady(w) :: safe(w))
    && forall config: Config, w: World, call: ToolCallRequest, script: CallScript | steady(w) && allowed(script) ::
         KeptBy(steady, safe, config, w, call, script)
  }

  ghost predicate KeptBy(
    steady: World -> bool, safe: World -> bool, config: Config, w: World, call: ToolCallRequest, script: CallScript)
  {
    && safe(AfterCall(config, w, call, script))
    && (ServeCall(config, w.journal, call, script).outcome.Some? ==> steady(AfterCall(config, w, call, script)))
  }

  ghost predicate AllAllowed(allowed: CallScript -> bool, scripts: seq<TurnScript>) {
    forall t, c :: 0 <= t < |scripts| && 0 <= c < |scripts[t].calls| ==> allowed(scripts[t].calls[c])
  }

  lemma {:induction false} ServingCallsKeeps(
    steady: World -> bool, safe: World -> bool, allowed: CallScript -> bool, config: Config, start: seq<Event>,
    b: BatchEffect, calls: seq<ToolCallRequest>, scripts: seq<CallScript>)
    requires EachCallKeeps(steady, safe, allowed) && forall c :: 0 <= c < |scripts| ==> allowed(scripts[c])
    requires safe(World(b.journal, start + b.trace)) && (!b.died ==> steady(World(b.journal, start + b.trace)))
    ensures var end := ServeCalls(config, b, calls, scripts);
            var after := World(end.journal, start + end.trace);
            safe(after) && (!end.died ==> steady(after))
    decreases |calls|
  {
    if !b.died && calls != [] && scripts != [] {
      var w := World(b.journal, start + b.trace);
      assert KeptBy(steady, safe, config, w, calls[0], scripts[0]);
      var next := ServeOne(config, b, calls[0], scripts[0]);
      Regroup(start, b.trace, ServeCall(config, b.journal, calls[0], scripts[0]).trace);
      assert World(next.journal, start + next.trace) == AfterCall(config, w, calls[0], scripts[0]);
      ServingCallsKeeps(steady, safe, allowed, config, start, next, calls[1..], scripts[1..]);
    }
  }

  /** A pass of the loop touches the journal only by serving a turn's calls. */
  lemma IterateOnlyServes(config: Config, s: LoopState, script: TurnScript)
    ensures var (next, ending) := Iterate(config, s, script);
            var b := ServeCalls(config, FreshBatch(s.journal), CallsServed(config, script), script.calls);
            || (next.journal, next.trace) == (s.journal, s.trace)
            || (next.journal == b.journal && next.trace == s.trace + b.trace && (ending.None? ==> !b.died))
  {
  }

  lemma IteratingKeeps(
    steady: World -> bool, safe: World -> bool, allowed: CallScript -> bool, config: Config, start: seq<Event>,
    s: LoopState, script: TurnScript)
    requires EachCallKeeps(steady, safe, allowed) && forall c :: 0 <= c < |script.calls| ==> allowed(script.calls[c])
    requires steady(World(s.journal, start + s.trace))
    ensures var (next, ending) := Iterate(config, s, script);
            var after := World(next.journal, start + next.trace);
            safe(after) && (ending.None? ==> steady(after))
  {
    var calls, batch := CallsServed(config, script), FreshBatch(s.journal);
    IterateOnlyServes(config, s, script);
    assert start + s.trace + [] == start + s.trace;
    ServingCallsKeeps(steady, safe, allowed, config, start + s.trace, batch, calls, script.calls);
    Regroup(start, s.trace, ServeCalls(config, batch, calls, script.calls).trace);
  }

  lemma {:induction false} LoopKeeps(
    steady: World -> bool, safe: World -> bool, allowed: CallScript -> bool, config: Config, start: seq<Event>,
    s: LoopState, scripts: seq<TurnScript>)
    requires EachCallKeeps(steady, safe, allowed) && AllAllowed(allowed, scripts)
    requires steady(World(s.journal, start + s.trace))
    ensures safe(World(Loop(config, s, scripts).0.journal, start + Loop(config, s, scripts).0.trace))
    decreases |scripts|
  {
    if scripts != [] {
      IteratingKeeps(steady, safe, allowed, config, start, s, scripts[0]);
      var (next, ending) := Iterate(config, s, scripts[0]);
      if ending.None? {
        LoopKeeps(steady, safe, allowed, config, start, next, scripts[1..]);
      }
    }
  }

  /** What each served call keeps, a life keeps, wherever the process dies. */
  lemma LifeKeeps(
    steady: World -> bool, safe: World -> bool, allowed: CallScript -> bool, w: World, life: Life)
    requires EachCallKeeps(steady, safe, allowed) && AllAllowed(allowed, life.scripts) && steady(w)
    ensures safe(Ungated(w, life))
  {
    assert w.trace + [] == w.trace;
    LoopKeeps(steady, safe, allowed, life.config, w.trace, InitialState(w.journal), life.scripts);
  }

  lemma EachCallIsSafe()
    ensures EachCallKeeps(Steady, Safe, _ => true)
  {
    forall config: Config, w: World, call: ToolCallRequest, script: CallScript | Steady(w)
      ensures KeptBy(Steady, Safe, config, w, call, script)
    {
      ServingIsSafe(config, w, call, script);
    }
  }

  /** A life from a safe world without an open destructive call is safe, gate or no gate. */
  lemma NothingOpenIsSafe(w: World, life: Life)
    requires Steady(w)
    ensures Safe(Ungated(w, life))
  {
    EachCallIsSafe();
    LifeKeeps(Steady, Safe, _ => true, w, life);
  }

  lemma {:induction false} LivesAreSafe(w: World, lives: seq<Life>)
    requires Safe(w)
    ensures Safe(History(w, lives))
    decreases |lives|
  {
    if lives != [] {
      if Settled(w.journal) {
        SettledIsSteady(w);
        NothingOpenIsSafe(w, lives[0]);
      }
      LivesAreSafe(Live(w, lives[0]), lives[1..]);
    }
  }

  /** Over any sequence of gated lives from an empty reference journal: a destructive call id is
      executed at most once, every execution follows its durable intent, a call with
      a recorded result is never executed again, and the journal is the trace's. */
  lemma EveryHistoryIsSafe(lives: seq<Life>)
    ensures Safe(History(NEW_WORLD, lives))
  {
    LivesAreSafe(NEW_WORLD, lives);
  }

  /** Once a destructive call is in doubt no further life runs: only a human, outside
      this protocol, can settle it. */
  lemma {:induction false} DoubtIsFinal(w: World, lives: seq<Life>)
    requires !Settled(w.journal)
    ensures History(w, lives) == w
    decreases |lives|
  {
    if lives != [] {
      DoubtIsFinal(w, lives[1..]);
    }
  }

  // ------------------------------------------------------------------
  // Authority
  // ------------------------------------------------------------------

  /** Everything executed was offered to this run, under its canonical effect class. */
  ghost predicate InAuthority(config: Config, trace: seq<Event>) {
    forall event | event in trace && event.ExecutorInvoked? ::
      event.call.capability in config.offered && event.call.effect == Canonical(event.call.capability).effect
  }

  lemma CallStaysInAuthority(config: Config, journal: Journal, call: ToolCallRequest, script: CallScript)
    ensures InAuthority(config, ServeCall(config, journal, call, script).trace)
  {
    var validation := Validate(call, config.offered);
    if validation.Success? {
      ExecutionStaysInAuthority(config, journal, IntentFor(validation.value), script);
    }
  }

  lemma ExecutionStaysInAuthority(config: Config, journal: Journal, intent: Intent, script: CallScript)
    requires intent.capability in config.offered && intent.effect == Canonical(intent.capability).effect
    ensures InAuthority(config, Execute(journal, intent, script).trace)
  {
  }

  lemma {:induction false} ServingStaysInAuthority(
    config: Config, b: BatchEffect, calls: seq<ToolCallRequest>, scripts: seq<CallScript>)
    requires InAuthority(config, b.trace)
    ensures InAuthority(config, ServeCalls(config, b, calls, scripts).trace)
    decreases |calls|
  {
    if !b.died && calls != [] && scripts != [] {
      CallStaysInAuthority(config, b.journal, calls[0], scripts[0]);
      ServingStaysInAuthority(config, ServeOne(config, b, calls[0], scripts[0]), calls[1..], scripts[1..]);
    }
  }

  /** No run executes a capability outside the ones it was configured to offer. */
  lemma {:induction false} RunStaysInAuthority(config: Config, s: LoopState, scripts: seq<TurnScript>)
    requires InAuthority(config, s.trace)
    ensures InAuthority(config, Loop(config, s, scripts).0.trace)
    decreases |scripts|
  {
    if scripts != [] {
      IterateOnlyServes(config, s, scripts[0]);
      ServingStaysInAuthority(config, FreshBatch(s.journal), CallsServed(config, scripts[0]), scripts[0].calls);
      var (next, ending) := Iterate(config, s, scripts[0]);
      if ending.None? {
        RunStaysInAuthority(config, next, scripts[1..]);
      }
    }
  }

  /** A call reaches the executor only after passing validation and authorization. */
  lemma OnlyAuthorizedCallsRun(config: Config, journal: Journal, call: ToolCallRequest, script: CallScript)
    ensures ServeCall(config, journal, call, script).trace != [] ==>
              script.decision == Authorized && !journal.HasResult(call.callId)
              && !call.malformed && ParseName(call.capabilityName).Some?
              && ParseName(call.capabilityName).value in config.offered
              && Utf8Length(call.arguments.text) <= Canonical(ParseName(call.capabilityName).value).maxPayloadBytes
              && ArgumentsFit(Canonical(ParseName(call.capabilityName).value), call.arguments)
    ensures forall event | event in ServeCall(config, journal, call, script).trace && event.ExecutorInvoked? ::
              Licenses(config, call, script, event.call)
  {
  }

  /** A requested call and the answers to it license an execution: the call was validated
      against what was offered, names this execution, and was authorized. */
  predicate Licenses(config: Config, call: ToolCallRequest, script: CallScript, intent: Intent) {
    var validated := Validate(call, config.offered);
    validated.Success? && IntentFor(validated.value) == intent && script.decision == Authorized
  }

  /** One of these calls licenses it. */
  ghost predicate Licensed(config: Config, calls: seq<ToolCallRequest>, scripts: seq<CallScript>, intent: Intent) {
    exists i :: 0 <= i < |calls| && i < |scripts| && Licenses(config, calls[i], scripts[i], intent)
  }

  /** One of the calls a run was streamed licenses it. */
  ghost predicate StreamedAndLicensed(config: Config, scripts: seq<TurnScript>, intent: Intent) {
    exists t :: 0 <= t < |scripts| && Licensed(config, CallsServed(config, scripts[t]), scripts[t].calls, intent)
  }

  lemma {:induction false} ServedCallsAreLicensed(
    config: Config, b: BatchEffect, calls: seq<ToolCallRequest>, scripts: seq<CallScript>, event: Event)
    requires event in ServeCalls(config, b, calls, scripts).trace && event.ExecutorInvoked?
    ensures event in b.trace || Licensed(config, calls, scripts, event.call)
    decreases |calls|
  {
    if !b.died && calls != [] && scripts != [] {
      var next := ServeOne(config, b, calls[0], scripts[0]);
      ServedCallsAreLicensed(config, next, calls[1..], scripts[1..], event);
      if event in next.trace {
        OnlyAuthorizedCallsRun(config, b.journal, calls[0], scripts[0]);
        if event !in b.trace {
          assert Licenses(config, calls[0], scripts[0], event.call);
        }
      } else {
        var i :| 0 <= i < |calls[1..]| && i < |scripts[1..]|
            && Licenses(config, calls[1..][i], scripts[1..][i], event.call);
        assert Licenses(config, calls[i + 1], scripts[i + 1], event.call);
      }
    }
  }

  lemma {:induction false} LoopIsLicensed(config: Config, s: LoopState, scripts: seq<TurnScript>, event: Event)
    requires event in Loop(config, s, scripts).0.trace && event.ExecutorInvoked?
    ensures event in s.trace || StreamedAndLicensed(config, scripts, event.call)
    decreases |scripts|
  {
    if scripts != [] {
      var (next, ending) := Iterate(config, s, scripts[0]);
      if ending.None? {
        LoopIsLicensed(config, next, scripts[1..], event);
        if event !in next.trace {
          var t :| 0 <= t < |scripts[1..]|
                   && Licensed(config, CallsServed(config, scripts[1..][t]), scripts[1..][t].calls, event.call);
          assert Licensed(config, CallsServed(config, scripts[t + 1]), scripts[t + 1].calls, event.call);
        }
      }
      if event in next.trace {
        IterateIsLicensed(config, s, scripts[0], event);
      }
    }
  }

  lemma IterateIsLicensed(config: Config, s: LoopState, script: TurnScript, event: Event)
    requires event in Iterate(config, s, script).0.trace && event.ExecutorInvoked?
    ensures event in s.trace || Licensed(config, CallsServed(config, script), script.calls, event.call)
  {
    var calls, batch := CallsServed(config, script), FreshBatch(s.journal);
    IterateOnlyServes(config, s, script);
    if event in ServeCalls(config, batch, calls, script.calls).trace {
      ServedCallsAreLicensed(config, batch, calls, script.calls, event);
    }
  }

  /** Every execution of every run stems from a call the model streamed in that run, which
      was validated against the offered capabilities and authorized. */
  lemma EveryExecutionIsLicensed(config: Config, journal: Journal, scripts: seq<TurnScript>)
    ensures forall event | event in Run(config, journal, scripts).0.trace && event.ExecutorInvoked? ::
              StreamedAndLicensed(config, scripts, event.call)
  {
    forall event | event in Run(config, journal, scripts).0.trace && event.ExecutorInvoked?
      ensures StreamedAndLicensed(config, scripts, event.call)
    {
      LoopIsLicensed(config, InitialState(journal), scripts, event);
    }
  }
}
