/** The budget reservation around one execution: how the host acquires, settles and
    releases it, and the guard that releases what an early exit leaves behind
    (crates/familiar-ai-agent/src/raw_agent.rs, lines 88-114 and 362-520;
    crates/familiar-ai-daemon/src/agent_runtime.rs, lines 1396-1474 and 1556-1767). */
module ReservationGuard {
  import opened Wrappers
  import opened AgentLoop
  import opened DecimalMoney
  import opened Rounding

  // ------------------------------------------------------------------
  // The reservation store and its replies
  // ------------------------------------------------------------------

  /** What the store has recorded; a call it answers with an error leaves no mark. */
  datatype StoreEvent =
    | BudgetGranted(id: nat)
    | BudgetReleased(id: nat)
    | BudgetSettled(id: nat, holds: bool)
    | LocalGranted(id: nat)
    | LocalReleased(id: nat)
    | LocalCommitted(id: nat)
    | LocalHeld(id: nat)

  datatype AcquireReply = Granted | Refused | AcquireFailed

  /** How each call of a reserve goes: opening the database, preparing the pool, the two
      acquisitions, and the release that rolls the first back. */
  datatype ReserveReplies = ReserveReplies(
    maxCost: Option<nat>, opens: bool, poolReady: bool, acquire: AcquireReply, localGranted: bool, rolledBack: bool)

  datatype AbandonReplies = AbandonReplies(localReleased: bool, opens: bool, released: bool)

  datatype FinishReplies = FinishReplies(opens: bool, resolved: bool, localResolved: bool, persisted: bool)

  /** How an execution leaves once its reservation is held: through a failure or a panic
      before `finish`, or by running the loop to a stop and calling it. */
  datatype Exit = Aborted(minted: nat) | RanTo(stop: StopReason, minted: nat, finish: FinishReplies)

  datatype ExecuteScript = ExecuteScript(reserve: ReserveReplies, exit: Exit, abandon: AbandonReplies)

  // ------------------------------------------------------------------
  // The host as values
  // ------------------------------------------------------------------

  datatype World = World(
    localConfigured: bool, reservationId: Option<nat>, localReservation: Option<nat>, attemptSequence: nat,
    nextId: nat, log: seq<StoreEvent>)

  function FreshWorld(localConfigured: bool): World {
    World(localConfigured, None, None, 0, 0, [])
  }

  predicate CostInRange(maxCost: Option<nat>) {
    maxCost.Some? ==> maxCost.value * 1000 <= U64_MAX
  }

  /** The store grants the budget. */
  predicate Grants(r: ReserveReplies) {
    CostInRange(r.maxCost) && r.opens && r.poolReady && r.acquire == Granted
  }

  function Reserve(w: World, r: ReserveReplies): (World, bool) {
    if !CostInRange(r.maxCost) then (w, false)
    else
      var counted := w.(attemptSequence := w.attemptSequence + 1);
      if !r.opens || !r.poolReady || r.acquire != Granted then (counted, false)
      else
        var held := counted.(reservationId := Some(w.nextId), nextId := w.nextId + 1,
                             log := w.log + [BudgetGranted(w.nextId)]);
        if !w.localConfigured then (held, true)
        else if r.localGranted then
          (held.(localReservation := Some(held.nextId), nextId := held.nextId + 1,
                 log := held.log + [LocalGranted(held.nextId)]), true)
        else if r.rolledBack then (held.(reservationId := None, log := held.log + [BudgetReleased(w.nextId)]), false)
        else (held, false)
  }

  /** The hardware reservation is taken from the host before the store is asked. */
  function ResolveLocal(w: World, event: nat -> StoreEvent, succeeds: bool): (World, bool) {
    if w.localReservation.None? then (w, true)
    else if succeeds then (w.(localReservation := None, log := w.log + [event(w.localReservation.value)]), true)
    else (w.(localReservation := None), false)
  }

  function Abandon(w: World, r: AbandonReplies): (World, bool) {
    var taken := w.(reservationId := None);
    var (freed, ok) := ResolveLocal(taken, (id: nat) => LocalReleased(id), r.localReleased);
    if !ok then (freed, false)
    else if w.reservationId.None? then (freed, true)
    else if r.opens && r.released then (freed.(log := freed.log + [BudgetReleased(w.reservationId.value)]), true)
    else (freed, false)
  }

  /** What settling a run that stopped so records. */
  function Settlement(stop: StopReason, id: nat): StoreEvent {
    match stop
    case Cancelled => BudgetReleased(id)
    case Timeout => BudgetSettled(id, true)
    case ProviderFailure(_) => BudgetSettled(id, true)
    case _ => BudgetSettled(id, false)
  }

  /** Likewise for hardware. A non-retryable failure is a definite answer: nothing is
      computing any more, and the slot is free. */
  function LocalSettlement(stop: StopReason, id: nat): StoreEvent {
    match stop
    case Cancelled => LocalReleased(id)
    case ProviderFailure(NonRetryableFailure) => LocalReleased(id)
    case Timeout => LocalHeld(id)
    case ProviderFailure(_) => LocalHeld(id)
    case _ => LocalCommitted(id)
  }

  function Finish(w: World, stop: StopReason, r: FinishReplies): (World, bool) {
    if !r.opens then (w, false)
    else if w.reservationId.Some? && !r.resolved then (w, false)
    else
      var settled :=
        if w.reservationId.None? then w
        else w.(reservationId := None, log := w.log + [Settlement(stop, w.reservationId.value)]);
      var (freed, ok) := ResolveLocal(settled, (id: nat) => LocalSettlement(stop, id), r.localResolved);
      (freed, ok && r.persisted)
  }

  /** What one execution reports: the scope its attempt ids carry and how many it minted. */
  datatype Report = Report(budget: Option<nat>, scope: nat, minted: nat)

  /** Leaving with the guard armed: a `finish` that succeeds disarms it, any other exit abandons. */
  function Leave(held: World, s: ExecuteScript): World {
    match s.exit
    case Aborted(_) => Abandon(held, s.abandon).0
    case RanTo(stop, _, replies) =>
      var (finished, done) := Finish(held, stop, replies);
      if done then finished else Abandon(finished, s.abandon).0
  }

  function Execution(w: World, s: ExecuteScript): (World, Report) {
    var (reserved, ok) := Reserve(w, s.reserve);
    var budget := if Grants(s.reserve) then Some(w.nextId) else None;
    if !ok then (reserved, Report(budget, reserved.attemptSequence, 0))
    else
      (Leave(reserved, s), Report(budget, reserved.attemptSequence, s.exit.minted))
  }

  /** Executions on one host, one after another. */
  function Executions(w: World, scripts: seq<ExecuteScript>, n: nat): (World, seq<Report>)
    requires n <= |scripts|
  {
    if n == 0 then (w, [])
    else
      var (before, reports) := Executions(w, scripts, n - 1);
      var (after, report) := Execution(before, scripts[n - 1]);
      (after, reports + [report])
  }

  // ------------------------------------------------------------------
  // The host as it runs
  // ------------------------------------------------------------------

  /** The store: reservations by a number it has not given out before. */
  class ReservationStore {
    var nextId: nat
    var log: seq<StoreEvent>

    constructor ()
      ensures nextId == 0 && log == []
    {
      nextId, log := 0, [];
    }

    method Grant(local: bool) returns (id: nat)
      modifies this
      ensures id == old(nextId) && nextId == id + 1
      ensures log == old(log) + [if local then LocalGranted(id) else BudgetGranted(id)]
    {
      id := nextId;
      nextId := nextId + 1;
      log := log + [if local then LocalGranted(id) else BudgetGranted(id)];
    }

    /** A call that resolves a reservation; when the store answers with an error it has done nothing. */
    method Resolve(event: StoreEvent, succeeds: bool) returns (ok: bool)
      modifies this`log
      ensures ok == succeeds && log == if succeeds then old(log) + [event] else old(log)
    {
      ok := succeeds;
      if succeeds { log := log + [event]; }
    }
  }

  class RawAgentHost {
    const store: ReservationStore
    const localConfigured: bool
    var reservationId: Option<nat>
    var localReservation: Option<nat>
    var attemptSequence: nat

    ghost function State(): World
      reads this, store
    {
      World(localConfigured, reservationId, localReservation, attemptSequence, store.nextId, store.log)
    }

    constructor (local: bool)
      ensures State() == FreshWorld(local) && fresh(store)
    {
      store := new ReservationStore();
      localConfigured := local;
      reservationId, localReservation, attemptSequence := None, None, 0;
    }

    method ReserveExecutionBudget(replies: ReserveReplies) returns (ok: bool)
      modifies this, store
      ensures (State(), ok) == Reserve(old(State()), replies)
    {
      if replies.maxCost.Some? && replies.maxCost.value * 1000 > U64_MAX { return false; }
      attemptSequence := attemptSequence + 1;
      if !replies.opens || !replies.poolReady { return false; }
      if replies.acquire != Granted { return false; }
      var budget := store.Grant(false);
      reservationId := Some(budget);
      var acquired := AcquireLocal(replies.localGranted);
      if !acquired {
        var released := store.Resolve(BudgetReleased(budget), replies.rolledBack);
        if !released { return false; }
        reservationId := None;
        return false;
      }
      return true;
    }

    method AcquireLocal(granted: bool) returns (ok: bool)
      modifies this`localReservation, store
      ensures ok == (!localConfigured || granted)
      ensures if localConfigured && granted
              then localReservation == Some(old(store.nextId)) && store.nextId == old(store.nextId) + 1
                   && store.log == old(store.log) + [LocalGranted(old(store.nextId))]
              else && localReservation == old(localReservation)
                   && store.nextId == old(store.nextId) && store.log == old(store.log)
    {
      if !localConfigured { return true; }
      if !granted { return false; }
      var id := store.Grant(true);
      localReservation := Some(id);
      return true;
    }

    /** Gives the hardware back; used where inference did not complete. */
    method ReleaseLocalReservation(released: bool) returns (ok: bool)
      modifies this`localReservation, store`log
      ensures (State(), ok) == ResolveLocal(old(State()), (id: nat) => LocalReleased(id), released)
    {
      var reservation := localReservation;
      localReservation := None;
      if reservation.None? { return true; }
      ok := store.Resolve(LocalReleased(reservation.value), released);
    }

    /** Commits, holds or gives back the hardware, as the stop reason says. */
    method ResolveLocalReservation(stop: StopReason, succeeds: bool) returns (ok: bool)
      modifies this`localReservation, store`log
      ensures (State(), ok) == ResolveLocal(old(State()), (id: nat) => LocalSettlement(stop, id), succeeds)
    {
      var reservation := localReservation;
      localReservation := None;
      if reservation.None? { return true; }
      ok := store.Resolve(LocalSettlement(stop, reservation.value), succeeds);
    }

    method AbandonExecution(replies: AbandonReplies) returns (ok: bool)
      modifies this, store
      ensures (State(), ok) == Abandon(old(State()), replies)
    {
      var reservation := reservationId;
      reservationId := None;
      var freed := ReleaseLocalReservation(replies.localReleased);
      if !freed { return false; }
      if reservation.None? { return true; }
      if !replies.opens { return false; }
      ok := store.Resolve(BudgetReleased(reservation.value), replies.released);
    }

    method FinishExecution(stop: StopReason, replies: FinishReplies) returns (ok: bool)
      modifies this, store
      ensures (State(), ok) == Finish(old(State()), stop, replies)
    {
      if !replies.opens { return false; }
      if reservationId.Some? {
        var resolved := store.Resolve(Settlement(stop, reservationId.value), replies.resolved);
        if !resolved { return false; }
      }
      reservationId := None;
      var resolved := ResolveLocalReservation(stop, replies.localResolved);
      return resolved && replies.persisted;
    }

    /** One execution. The guard is armed once the reservation is held, disarmed only by a
        `finish` that succeeds, and dropped, armed or not, on the way out. */
    method Execute(script: ExecuteScript) returns (report: Report)
      modifies this, store
      ensures (State(), report) == Execution(old(State()), script)
    {
      var first := store.nextId;
      var reserved := ReserveExecutionBudget(script.reserve);
      var granted := if store.nextId > first then Some(first) else None;
      if !reserved {
        return Report(granted, attemptSequence, 0);
      }
      var armed := true;
      report := Report(granted, attemptSequence, script.exit.minted);
      if script.exit.RanTo? {
        var done := FinishExecution(script.exit.stop, script.exit.finish);
        if done { armed := false; }
      }
      if armed {
        var _ := AbandonExecution(script.abandon);
      }
    }

    method ExecuteEach(scripts: seq<ExecuteScript>) returns (reports: seq<Report>)
      modifies this, store
      ensures (State(), reports) == Executions(old(State()), scripts, |scripts|)
    {
      reports := [];
      for i := 0 to |scripts|
        invariant (State(), reports) == Executions(old(State()), scripts, i)
      {
        var report := this.Execute(scripts[i]);
        reports := reports + [report];
      }
    }
  }

  // ------------------------------------------------------------------
  // Every reservation is resolved once
  // ------------------------------------------------------------------

  predicate ResolvesBudget(event: StoreEvent, id: nat) {
    (event.BudgetReleased? || event.BudgetSettled?) && event.id == id
  }

  predicate ResolvesLocal(event: StoreEvent, id: nat) {
    (event.LocalReleased? || event.LocalCommitted? || event.LocalHeld?) && event.id == id
  }

  /** The events that resolve one budget reservation, in order. */
  function BudgetResolutions(log: seq<StoreEvent>, id: nat): seq<StoreEvent> {
    if log == [] then []
    else BudgetResolutions(log[..|log| - 1], id) + (if ResolvesBudget(log[|log| - 1], id) then [log[|log| - 1]] else [])
  }

  function LocalResolutions(log: seq<StoreEvent>, id: nat): seq<StoreEvent> {
    if log == [] then []
    else LocalResolutions(log[..|log| - 1], id) + (if ResolvesLocal(log[|log| - 1], id) then [log[|log| - 1]] else [])
  }

  lemma {:induction false} ResolutionsAppend(log: seq<StoreEvent>, more: seq<StoreEvent>, id: nat)
    ensures BudgetResolutions(log + more, id) == BudgetResolutions(log, id) + BudgetResolutions(more, id)
    ensures LocalResolutions(log + more, id) == LocalResolutions(log, id) + LocalResolutions(more, id)
    decreases |more|
  {
    if more == [] {
      assert log + more == log;
    } else {
      assert (log + more)[..|log + more| - 1] == log + more[..|more| - 1];
      ResolutionsAppend(log, more[..|more| - 1], id);
    }
  }

  /** Whether the guard's release, when it runs with the reservation still held, gets through. */
  predicate AbandonReleases(local: bool, r: AbandonReplies) {
    (local ==> r.localReleased) && r.opens && r.released
  }

  predicate FinishSettles(exit: Exit) {
    exit.RanTo? && exit.finish.opens && exit.finish.resolved
  }

  /** The one event that resolves the budget an execution was granted, if any does. */
  function Resolution(local: bool, s: ExecuteScript, id: nat): seq<StoreEvent> {
    if local && !s.reserve.localGranted then (if s.reserve.rolledBack then [BudgetReleased(id)] else [])
    else if FinishSettles(s.exit) then [Settlement(s.exit.stop, id)]
    else if AbandonReleases(local, s.abandon) then [BudgetReleased(id)]
    else []
  }

  /** Likewise for its hardware reservation. */
  function LocalResolution(s: ExecuteScript, id: nat): seq<StoreEvent> {
    if FinishSettles(s.exit) then (if s.exit.finish.localResolved then [LocalSettlement(s.exit.stop, id)] else [])
    else if s.abandon.localReleased then [LocalReleased(id)]
    else []
  }

  /** What leaving with the budget and perhaps hardware held appends to the log. */
  function ExitEvents(local: bool, s: ExecuteScript, id: nat): seq<StoreEvent> {
    var budget, hardware := Resolution(local, s, id), LocalResolution(s, id + 1);
    if !local then budget else if FinishSettles(s.exit) then budget + hardware else hardware + budget
  }

  /** Everything an execution appends when it is granted both, or the budget alone. */
  function BothEvents(s: ExecuteScript, id: nat): seq<StoreEvent> {
    [BudgetGranted(id), LocalGranted(id + 1)] + ExitEvents(true, s, id)
  }

  function BudgetEvents(local: bool, s: ExecuteScript, id: nat): seq<StoreEvent> {
    [BudgetGranted(id)] + Resolution(local, s, id)
  }

  function EventsOf(w: World, s: ExecuteScript): seq<StoreEvent> {
    if !Grants(s.reserve) then []
    else if w.localConfigured && s.reserve.localGranted then BothEvents(s, w.nextId)
    else BudgetEvents(w.localConfigured, s, w.nextId)
  }

  /** Between executions no hardware reservation is held. */
  predicate AtRest(w: World) {
    w.localReservation.None?
  }

  /** What is held once a reserve has succeeded. */
  predicate Held(w: World, id: nat) {
    w.reservationId == Some(id) && w.localReservation == if w.localConfigured then Some(id + 1) else None
  }

  lemma AbandonAppends(w: World, r: AbandonReplies, id: nat)
    requires Held(w, id)
    ensures var after := Abandon(w, r).0;
            && AtRest(after) && after == w.(reservationId := None, localReservation := None, log := after.log)
            && after.log == w.log + (if w.localConfigured && r.localReleased then [LocalReleased(id + 1)] else [])
                 + (if AbandonReleases(w.localConfigured, r) then [BudgetReleased(id)] else [])
  {
  }

  /** A `finish` that settles leaves an abandon nothing to do. */
  lemma FinishAppends(w: World, stop: StopReason, r: FinishReplies, id: nat)
    requires Held(w, id)
    ensures var (after, done) := Finish(w, stop, r);
            if r.opens && r.resolved then
              && after == w.(reservationId := None, localReservation := None, log := after.log)
              && after.log == w.log + [Settlement(stop, id)]
                   + (if w.localConfigured && r.localResolved then [LocalSettlement(stop, id + 1)] else [])
            else after == w && !done
  {
  }

  lemma AbandonOfNothing(w: World, r: AbandonReplies)
    requires w.reservationId.None? && w.localReservation.None?
    ensures Abandon(w, r).0 == w
  {
  }

  lemma LeaveAppends(w: World, s: ExecuteScript, id: nat)
    requires Held(w, id) && (w.localConfigured ==> s.reserve.localGranted)
    ensures var after := Leave(w, s);
            && after == w.(reservationId := None, localReservation := None, log := after.log)
            && after.log == w.log + ExitEvents(w.localConfigured, s, id)
  {
    AbandonAppends(w, s.abandon, id);
    if s.exit.RanTo? {
      var finished := Finish(w, s.exit.stop, s.exit.finish).0;
      FinishAppends(w, s.exit.stop, s.exit.finish, id);
      if FinishSettles(s.exit) {
        AbandonOfNothing(finished, s.abandon);
      }
    }
  }

  /** What one execution leaves behind, told by its script. */
  ghost predicate Ran(w: World, s: ExecuteScript, after: World, report: Report) {
    && AtRest(after) && after.localConfigured == w.localConfigured
    && after.log == w.log + EventsOf(w, s)
    && after.nextId == w.nextId
         + (if !Grants(s.reserve) then 0 else if w.localConfigured && s.reserve.localGranted then 2 else 1)
    && report.budget == (if Grants(s.reserve) then Some(w.nextId) else None)
  }

  lemma ReserveAppends(w: World, r: ReserveReplies)
    requires AtRest(w)
    ensures var (after, ok) := Reserve(w, r);
            && (ok <==> Grants(r) && (w.localConfigured ==> r.localGranted))
            && (ok ==> Held(after, w.nextId) && after.localConfigured == w.localConfigured
                       && after.nextId == w.nextId + (if w.localConfigured then 2 else 1)
                       && after.log == w.log
                          + (if w.localConfigured then [BudgetGranted(w.nextId), LocalGranted(w.nextId + 1)]
                                                else [BudgetGranted(w.nextId)]))
  {
    if Grants(r) && w.localConfigured && r.localGranted {
      assert w.log + [BudgetGranted(w.nextId)] + [LocalGranted(w.nextId + 1)]
          == w.log + [BudgetGranted(w.nextId), LocalGranted(w.nextId + 1)];
    }
  }

  lemma RefusedReserveRan(w: World, s: ExecuteScript)
    requires AtRest(w) && !Reserve(w, s.reserve).1
    ensures Ran(w, s, Reserve(w, s.reserve).0, Report(if Grants(s.reserve) then Some(w.nextId) else None, 0, 0))
  {
    ReserveAppends(w, s.reserve);
  }

  lemma ExecutionRan(w: World, s: ExecuteScript)
    requires AtRest(w)
    ensures Ran(w, s, Execution(w, s).0, Execution(w, s).1)
  {
    var (reserved, ok) := Reserve(w, s.reserve);
    if ok {
      ReserveAppends(w, s.reserve);
      LeaveAppends(reserved, s, w.nextId);
    } else {
      RefusedReserveRan(w, s);
    }
  }

  lemma ShortResolutions(piece: seq<StoreEvent>, id: nat)
    requires |piece| <= 1
    ensures BudgetResolutions(piece, id) == if piece != [] && ResolvesBudget(piece[0], id) then piece else []
    ensures LocalResolutions(piece, id) == if piece != [] && ResolvesLocal(piece[0], id) then piece else []
  {
    if piece != [] { assert piece[..0] == []; }
  }

  lemma GrantsResolveNothing(budget: nat, hardware: nat, id: nat)
    ensures BudgetResolutions([BudgetGranted(budget)], id) == [] && LocalResolutions([BudgetGranted(budget)], id) == []
    ensures BudgetResolutions([BudgetGranted(budget), LocalGranted(hardware)], id) == []
    ensures LocalResolutions([BudgetGranted(budget), LocalGranted(hardware)], id) == []
  {
    var first, second := [BudgetGranted(budget)], [LocalGranted(hardware)];
    assert [BudgetGranted(budget), LocalGranted(hardware)] == first + second;
    ResolutionsAppend(first, second, id);
    ShortResolutions(first, id);
    ShortResolutions(second, id);
  }

  lemma BudgetPiece(local: bool, s: ExecuteScript, own: nat, id: nat)
    ensures BudgetResolutions(Resolution(local, s, own), id) == if id == own then Resolution(local, s, own) else []
    ensures LocalResolutions(Resolution(local, s, own), id) == []
  {
    ShortResolutions(Resolution(local, s, own), id);
  }

  lemma HardwarePiece(s: ExecuteScript, own: nat, id: nat)
    ensures LocalResolutions(LocalResolution(s, own), id) == if id == own then LocalResolution(s, own) else []
    ensures BudgetResolutions(LocalResolution(s, own), id) == []
  {
    ShortResolutions(LocalResolution(s, own), id);
  }

  function BudgetShare(w: World, s: ExecuteScript, id: nat): seq<StoreEvent> {
    if Grants(s.reserve) && id == w.nextId then Resolution(w.localConfigured, s, id) else []
  }

  function HardwareShare(w: World, s: ExecuteScript, id: nat): seq<StoreEvent> {
    if Grants(s.reserve) && w.localConfigured && s.reserve.localGranted && id == w.nextId + 1
    then LocalResolution(s, id) else []
  }

  lemma ExitResolves(s: ExecuteScript, own: nat, id: nat)
    ensures BudgetResolutions(ExitEvents(true, s, own), id) == if id == own then Resolution(true, s, own) else []
    ensures LocalResolutions(ExitEvents(true, s, own), id) == if id == own + 1 then LocalResolution(s, own + 1) else []
  {
    var budget, hardware := Resolution(true, s, own), LocalResolution(s, own + 1);
    BudgetPiece(true, s, own, id);
    HardwarePiece(s, own + 1, id);
    ResolutionsAppend(budget, hardware, id);
    ResolutionsAppend(hardware, budget, id);
  }

  lemma EventsResolve(w: World, s: ExecuteScript, id: nat)
    ensures BudgetResolutions(EventsOf(w, s), id) == BudgetShare(w, s, id)
    ensures LocalResolutions(EventsOf(w, s), id) == HardwareShare(w, s, id)
  {
    if !Grants(s.reserve) {
      assert EventsOf(w, s) == [];
    } else if w.localConfigured && s.reserve.localGranted {
      BothGranted(w, s, id);
    } else {
      BudgetGrantedAlone(w, s, id);
    }
  }

  lemma BothGranted(w: World, s: ExecuteScript, id: nat)
    requires Grants(s.reserve) && w.localConfigured && s.reserve.localGranted
    ensures BudgetResolutions(EventsOf(w, s), id) == BudgetShare(w, s, id)
    ensures LocalResolutions(EventsOf(w, s), id) == HardwareShare(w, s, id)
  {
    GrantedExitResolves(s, w.nextId, id);
  }

  lemma BudgetGrantedAlone(w: World, s: ExecuteScript, id: nat)
    requires Grants(s.reserve) && !(w.localConfigured && s.reserve.localGranted)
    ensures BudgetResolutions(EventsOf(w, s), id) == BudgetShare(w, s, id)
    ensures LocalResolutions(EventsOf(w, s), id) == HardwareShare(w, s, id)
  {
    GrantedBudgetResolves(w.localConfigured, s, w.nextId, id);
  }

  lemma GrantedExitResolves(s: ExecuteScript, own: nat, id: nat)
    ensures var events := BothEvents(s, own);
            && BudgetResolutions(events, id) == (if id == own then Resolution(true, s, own) else [])
            && LocalResolutions(events, id) == (if id == own + 1 then LocalResolution(s, own + 1) else [])
  {
    GrantsResolveNothing(own, own + 1, id);
    ExitResolves(s, own, id);
    ResolutionsAppend([BudgetGranted(own), LocalGranted(own + 1)], ExitEvents(true, s, own), id);
  }

  lemma GrantedBudgetResolves(local: bool, s: ExecuteScript, own: nat, id: nat)
    ensures var events := BudgetEvents(local, s, own);
            && BudgetResolutions(events, id) == (if id == own then Resolution(local, s, own) else [])
            && LocalResolutions(events, id) == []
  {
    GrantsResolveNothing(own, own + 1, id);
    BudgetPiece(local, s, own, id);
    ResolutionsAppend([BudgetGranted(own)], Resolution(local, s, own), id);
  }

  lemma RanResolves(w: World, s: ExecuteScript, after: World, report: Report, id: nat)
    requires Ran(w, s, after, report)
    ensures BudgetResolutions(after.log, id) == BudgetResolutions(w.log, id) + BudgetShare(w, s, id)
    ensures LocalResolutions(after.log, id) == LocalResolutions(w.log, id) + HardwareShare(w, s, id)
  {
    ResolutionsAppend(w.log, EventsOf(w, s), id);
    EventsResolve(w, s, id);
  }

  /** One execution resolves what it was granted, as its script says, and nothing else. */
  lemma ExecutionResolves(w: World, s: ExecuteScript, id: nat)
    requires AtRest(w)
    ensures BudgetResolutions(Execution(w, s).0.log, id) == BudgetResolutions(w.log, id) + BudgetShare(w, s, id)
    ensures LocalResolutions(Execution(w, s).0.log, id) == LocalResolutions(w.log, id) + HardwareShare(w, s, id)
  {
    ExecutionRan(w, s);
    RanResolves(w, s, Execution(w, s).0, Execution(w, s).1, id);
  }

  /** No reservation has more than one resolution, and one not yet given out has none. */
  ghost predicate Once(w: World, id: nat) {
    && |BudgetResolutions(w.log, id)| <= 1 && |LocalResolutions(w.log, id)| <= 1
    && (id >= w.nextId ==> BudgetResolutions(w.log, id) == [] && LocalResolutions(w.log, id) == [])
  }

  /** What an execution was granted has been resolved as its script says. */
  ghost predicate AsScripted(w: World, local: bool, s: ExecuteScript, report: Report) {
    report.budget.Some? ==>
      var id := report.budget.value;
      && id < w.nextId && BudgetResolutions(w.log, id) == Resolution(local, s, id)
      && (local && s.reserve.localGranted ==>
            id + 1 < w.nextId && LocalResolutions(w.log, id + 1) == LocalResolution(s, id + 1))
  }

  /** What holds between executions. */
  ghost predicate Accounted(w: World, local: bool, scripts: seq<ExecuteScript>, reports: seq<Report>)
    requires |reports| <= |scripts|
  {
    && AtRest(w) && w.localConfigured == local
    && (forall id: nat :: Once(w, id))
    && (forall k :: 0 <= k < |reports| ==> AsScripted(w, local, scripts[k], reports[k]))
  }

  /** A share is at most one resolution, and only of what the execution was granted. */
  lemma SharesAreSmall(w: World, s: ExecuteScript, id: nat)
    ensures |BudgetShare(w, s, id)| <= 1 && |HardwareShare(w, s, id)| <= 1
    ensures BudgetShare(w, s, id) != [] ==> Grants(s.reserve) && id == w.nextId
    ensures HardwareShare(w, s, id) != [] ==>
              Grants(s.reserve) && w.localConfigured && s.reserve.localGranted && id == w.nextId + 1
  {
  }

  lemma OnceStep(w: World, s: ExecuteScript, after: World, report: Report, id: nat)
    requires Ran(w, s, after, report) && Once(w, id)
    ensures Once(after, id)
  {
    RanResolves(w, s, after, report, id);
    SharesAreSmall(w, s, id);
    OnceMore(BudgetResolutions(w.log, id), BudgetShare(w, s, id));
    OnceMore(LocalResolutions(w.log, id), HardwareShare(w, s, id));
  }

  lemma OnceMore(before: seq<StoreEvent>, more: seq<StoreEvent>)
    ensures before == [] ==> before + more == more
    ensures more == [] ==> before + more == before
  {
  }

  lemma EarlierStaysScripted(
    w: World, s: ExecuteScript, after: World, report: Report, local: bool, earlier: ExecuteScript, before: Report)
    requires Ran(w, s, after, report) && AsScripted(w, local, earlier, before)
    ensures AsScripted(after, local, earlier, before)
  {
    if before.budget.Some? {
      RanResolves(w, s, after, report, before.budget.value);
      RanResolves(w, s, after, report, before.budget.value + 1);
    }
  }

  lemma NewIsScripted(w: World, s: ExecuteScript, after: World, report: Report)
    requires Ran(w, s, after, report) && Once(w, w.nextId) && Once(w, w.nextId + 1)
    ensures AsScripted(after, w.localConfigured, s, report)
  {
    if Grants(s.reserve) {
      RanResolves(w, s, after, report, w.nextId);
      assert [] + Resolution(w.localConfigured, s, w.nextId) == Resolution(w.localConfigured, s, w.nextId);
      if w.localConfigured && s.reserve.localGranted {
        NewHardwareIsScripted(w, s, after, report);
      }
    }
  }

  lemma NewHardwareIsScripted(w: World, s: ExecuteScript, after: World, report: Report)
    requires Ran(w, s, after, report) && Once(w, w.nextId + 1)
    requires Grants(s.reserve) && w.localConfigured && s.reserve.localGranted
    ensures LocalResolutions(after.log, w.nextId + 1) == LocalResolution(s, w.nextId + 1)
  {
    RanResolves(w, s, after, report, w.nextId + 1);
  }

  lemma AccountedStep(
    w: World, local: bool, scripts: seq<ExecuteScript>, reports: seq<Report>, after: World, report: Report)
    requires |reports| < |scripts| && Accounted(w, local, scripts, reports)
    requires Ran(w, scripts[|reports|], after, report)
    ensures Accounted(after, local, scripts, reports + [report])
  {
    var s := scripts[|reports|];
    StaysOnce(w, s, after, report);
    StayScripted(w, s, after, report, local, scripts, reports);
    NewIsScripted(w, s, after, report);
    AllScripted(after, local, scripts, reports, report);
  }

  lemma StayScripted(
    w: World, s: ExecuteScript, after: World, report: Report, local: bool,
    scripts: seq<ExecuteScript>, reports: seq<Report>)
    requires Ran(w, s, after, report) && |reports| <= |scripts|
    requires forall k :: 0 <= k < |reports| ==> AsScripted(w, local, scripts[k], reports[k])
    ensures forall k :: 0 <= k < |reports| ==> AsScripted(after, local, scripts[k], reports[k])
  {
    forall k | 0 <= k < |reports| ensures AsScripted(after, local, scripts[k], reports[k]) {
      EarlierStaysScripted(w, s, after, report, local, scripts[k], reports[k]);
    }
  }

  lemma AllScripted(
    after: World, local: bool, scripts: seq<ExecuteScript>, reports: seq<Report>, report: Report)
    requires |reports| < |scripts| && AsScripted(after, local, scripts[|reports|], report)
    requires forall k :: 0 <= k < |reports| ==> AsScripted(after, local, scripts[k], reports[k])
    ensures forall k :: 0 <= k < |reports + [report]| ==> AsScripted(after, local, scripts[k], (reports + [report])[k])
  {
  }

  lemma StaysOnce(w: World, s: ExecuteScript, after: World, report: Report)
    requires Ran(w, s, after, report) && forall id: nat :: Once(w, id)
    ensures forall id: nat :: Once(after, id)
  {
    forall id: nat ensures Once(after, id) {
      OnceStep(w, s, after, report, id);
    }
  }

  lemma NothingIsOnce(local: bool, id: nat)
    ensures Once(FreshWorld(local), id)
  {
  }

  lemma {:induction false} ExecutionsAccount(local: bool, scripts: seq<ExecuteScript>, n: nat)
    requires n <= |scripts|
    ensures var (w, reports) := Executions(FreshWorld(local), scripts, n);
            |reports| == n && Accounted(w, local, scripts, reports)
  {
    if n == 0 {
      forall id: nat ensures Once(FreshWorld(local), id) { NothingIsOnce(local, id); }
    } else {
      ExecutionsAccount(local, scripts, n - 1);
      var (w, reports) := Executions(FreshWorld(local), scripts, n - 1);
      var (after, report) := Execution(w, scripts[n - 1]);
      ExecutionRan(w, scripts[n - 1]);
      AccountedStep(w, local, scripts, reports, after, report);
    }
  }

  /** Whether the budget an execution was granted gets resolved: by the rollback if the
      hardware was refused, and otherwise by `finish` settling it or the guard releasing it. */
  predicate GetsResolved(local: bool, s: ExecuteScript) {
    if local && !s.reserve.localGranted then s.reserve.rolledBack
    else FinishSettles(s.exit) || AbandonReleases(local, s.abandon)
  }

  /** The budget an execution was granted is resolved once if that execution gets it
      resolved and never otherwise; holding the amount follows only a run that timed out
      or whose provider failed, settling it in full only a run that reached another stop,
      and a run that was settled gives the amount back only if it was cancelled. */
  ghost predicate ResolvedAsDue(w: World, local: bool, s: ExecuteScript, report: Report) {
    report.budget.Some? ==>
      var resolutions := BudgetResolutions(w.log, report.budget.value);
      && |resolutions| == (if GetsResolved(local, s) then 1 else 0)
      && (BudgetSettled(report.budget.value, true) in resolutions ==>
            s.exit.RanTo? && (s.exit.stop.Timeout? || s.exit.stop.ProviderFailure?))
      && (BudgetSettled(report.budget.value, false) in resolutions ==>
            s.exit.RanTo? && !s.exit.stop.Timeout? && !s.exit.stop.ProviderFailure? && !s.exit.stop.Cancelled?)
      && (BudgetReleased(report.budget.value) in resolutions && FinishSettles(s.exit) ==>
            s.exit.stop.Cancelled? || (local && !s.reserve.localGranted))
  }

  /** Its hardware is given back, committed or held by at most one call, which is the one
      that `finish` makes for the stop reason or else the guard's release. */
  ghost predicate HardwareAsDue(w: World, local: bool, s: ExecuteScript, report: Report) {
    report.budget.Some? && local && s.reserve.localGranted ==>
      var id := report.budget.value + 1;
      var resolutions := LocalResolutions(w.log, id);
      && |resolutions| == (if (if FinishSettles(s.exit) then s.exit.finish.localResolved else s.abandon.localReleased)
                           then 1 else 0)
      && (LocalHeld(id) in resolutions ==>
            FinishSettles(s.exit)
            && (s.exit.stop.Timeout?
                || (s.exit.stop.ProviderFailure? && s.exit.stop.taxonomy != NonRetryableFailure)))
      && (LocalCommitted(id) in resolutions ==>
            FinishSettles(s.exit)
            && !s.exit.stop.Timeout? && !s.exit.stop.ProviderFailure? && !s.exit.stop.Cancelled?)
      && (LocalReleased(id) in resolutions && FinishSettles(s.exit) ==>
            s.exit.stop.Cancelled? || s.exit.stop == ProviderFailure(NonRetryableFailure))
  }

  lemma ScriptedIsDue(w: World, local: bool, s: ExecuteScript, report: Report)
    requires AsScripted(w, local, s, report)
    ensures ResolvedAsDue(w, local, s, report) && HardwareAsDue(w, local, s, report)
  {
  }

  /** No reservation is resolved twice, and each budget granted is resolved as is due. */
  ghost predicate AllResolvedAsDue(w: World, local: bool, scripts: seq<ExecuteScript>, reports: seq<Report>) {
    && |reports| == |scripts|
    && (forall id: nat :: |BudgetResolutions(w.log, id)| <= 1 && |LocalResolutions(w.log, id)| <= 1)
    && (forall k :: 0 <= k < |scripts| ==>
          ResolvedAsDue(w, local, scripts[k], reports[k]) && HardwareAsDue(w, local, scripts[k], reports[k]))
  }

  /** Over any executions on one host, however each of them leaves: no reservation is ever
      settled or released twice, and each budget granted is resolved as is due. */
  lemma EveryReservationIsResolvedOnce(local: bool, scripts: seq<ExecuteScript>)
    ensures AllResolvedAsDue(Executions(FreshWorld(local), scripts, |scripts|).0, local, scripts,
                             Executions(FreshWorld(local), scripts, |scripts|).1)
  {
    ExecutionsAccount(local, scripts, |scripts|);
    var (w, reports) := Executions(FreshWorld(local), scripts, |scripts|);
    forall k | 0 <= k < |scripts|
      ensures ResolvedAsDue(w, local, scripts[k], reports[k]) && HardwareAsDue(w, local, scripts[k], reports[k])
    {
      ScriptedIsDue(w, local, scripts[k], reports[k]);
    }
    forall id: nat ensures |BudgetResolutions(w.log, id)| <= 1 && |LocalResolutions(w.log, id)| <= 1 {
      assert Once(w, id);
    }
  }

  // ------------------------------------------------------------------
  // Attempt ids
  // ------------------------------------------------------------------

  function AttemptId(execution: string, worker: string, scope: nat, counter: nat): string {
    ((execution + ":" + worker) + ":" + Decimal(scope)) + ":" + Decimal(counter)
  }

  /** A text that ends in a colon and digits splits in one way. */
  lemma LastFieldIsUnique(a: string, m: string, b: string, n: string)
    requires AllDigits(m) && AllDigits(n) && a + ":" + m == b + ":" + n
    ensures a == b && m == n
  {
    var text := a + ":" + m;
    assert text[|a|] == ':' && text[|b|] == ':';
    assert forall i :: |a| < i < |text| ==> text[i] == m[i - |a| - 1] && IsDigit(text[i]);
    assert forall i :: |b| < i < |text| ==> text[i] == n[i - |b| - 1] && IsDigit(text[i]);
    assert |a| == |b|;
    assert text[..|a|] == a && text[..|b|] == b;
    assert text[|a| + 1..] == m && text[|b| + 1..] == n;
  }

  /** Two attempt ids are equal exactly when scope and counter are, and the execution and
      worker read the same joined. */
  lemma AttemptIdsAgreeExactly(
    e: string, w: string, scope: nat, counter: nat, f: string, v: string, scope': nat, counter': nat)
    ensures AttemptId(e, w, scope, counter) == AttemptId(f, v, scope', counter')
            <==> e + ":" + w == f + ":" + v && scope == scope' && counter == counter'
  {
    if AttemptId(e, w, scope, counter) == AttemptId(f, v, scope', counter') {
      LastFieldIsUnique(e + ":" + w + ":" + Decimal(scope), Decimal(counter),
                        f + ":" + v + ":" + Decimal(scope'), Decimal(counter'));
      LastFieldIsUnique(e + ":" + w, Decimal(scope), f + ":" + v, Decimal(scope'));
      DecimalReadsBack(counter);
      DecimalReadsBack(counter');
      DecimalReadsBack(scope);
      DecimalReadsBack(scope');
    }
  }

  /** Scopes only grow, and an execution that mints anything has a scope of its own. */
  ghost predicate ScopesGrow(w: World, reports: seq<Report>) {
    && (forall k :: 0 <= k < |reports| ==> reports[k].scope <= w.attemptSequence)
    && (forall j, k :: 0 <= j < k < |reports| && reports[k].minted > 0 ==> reports[j].scope < reports[k].scope)
  }

  lemma {:induction false} ExecutionsScope(start: World, scripts: seq<ExecuteScript>, n: nat)
    requires n <= |scripts|
    ensures var (w, reports) := Executions(start, scripts, n);
            |reports| == n && ScopesGrow(w, reports) && start.attemptSequence <= w.attemptSequence
    ensures forall k :: 0 <= k < n && Executions(start, scripts, n).1[k].minted > 0 ==>
              Executions(start, scripts, n).1[k].scope > start.attemptSequence
  {
    if n > 0 {
      ExecutionsScope(start, scripts, n - 1);
      var (w, reports) := Executions(start, scripts, n - 1);
      ScopeStep(w, scripts[n - 1]);
    }
  }

  lemma ScopeStep(w: World, s: ExecuteScript)
    ensures var (after, report) := Execution(w, s);
            && w.attemptSequence <= report.scope == after.attemptSequence
            && (report.minted > 0 ==> w.attemptSequence < report.scope)
  {
  }

  /** The reserves among the first n whose cost ceiling is within range in thousandths. */
  function Counted(scripts: seq<ExecuteScript>, n: nat): nat
    requires n <= |scripts|
  {
    if n == 0 then 0
    else
      var maxCost := scripts[n - 1].reserve.maxCost;
      Counted(scripts, n - 1) + if maxCost.Some? && maxCost.value > U64_MAX / 1000 then 0 else 1
  }

  /** Every reserve within range takes the next scope, also one that the store refuses or that
      cannot reach it; attempt ids are minted only by executions that hold their reservations. */
  lemma {:induction false} ScopesAreCounted(local: bool, scripts: seq<ExecuteScript>, n: nat)
    requires n <= |scripts|
    ensures var (w, reports) := Executions(FreshWorld(local), scripts, n);
            && |reports| == n && w.localConfigured == local && w.attemptSequence == Counted(scripts, n)
            && forall k :: 0 <= k < n ==>
                 && reports[k].scope == Counted(scripts, k + 1)
                 && reports[k].minted == if Grants(scripts[k].reserve) && (local ==> scripts[k].reserve.localGranted)
                                         then scripts[k].exit.minted else 0
  {
    if n > 0 {
      ScopesAreCounted(local, scripts, n - 1);
      var w := Executions(FreshWorld(local), scripts, n - 1).0;
      ExecutionCounts(w, scripts[n - 1]);
    }
  }

  lemma ExecutionCounts(w: World, s: ExecuteScript)
    ensures var (after, report) := Execution(w, s);
            var inRange := s.reserve.maxCost.Some? ==> s.reserve.maxCost.value <= U64_MAX / 1000;
            && after.localConfigured == w.localConfigured
            && report.scope == after.attemptSequence == w.attemptSequence + (if inRange then 1 else 0)
            && report.minted == if Grants(s.reserve) && (w.localConfigured ==> s.reserve.localGranted)
                                then s.exit.minted else 0
  {
  }

  /** Executions on one host never mint the same attempt id twice. */
  lemma AttemptIdsNeverRepeat(
    local: bool, scripts: seq<ExecuteScript>, execution: string, worker: string, j: nat, c: nat, k: nat, d: nat)
    requires j < |scripts| && k < |scripts|
    requires var reports := Executions(FreshWorld(local), scripts, |scripts|).1;
             |reports| == |scripts| && 1 <= c <= reports[j].minted && 1 <= d <= reports[k].minted
    ensures var reports := Executions(FreshWorld(local), scripts, |scripts|).1;
            AttemptId(execution, worker, reports[j].scope, c) == AttemptId(execution, worker, reports[k].scope, d)
            <==> j == k && c == d
  {
    var reports := Executions(FreshWorld(local), scripts, |scripts|).1;
    ExecutionsScope(FreshWorld(local), scripts, |scripts|);
    AttemptIdsAgreeExactly(execution, worker, reports[j].scope, c, execution, worker, reports[k].scope, d);
  }

  // ------------------------------------------------------------------
  // Two hosts
  // ------------------------------------------------------------------

  /** A fresh host on a store that others have used. */
  function Joining(store: World, local: bool): World {
    FreshWorld(local).(nextId := store.nextId, log := store.log)
  }

  /** What the store knows a reservation's owner by; no two reservations have one owner. The
      attempt is the value the host's counter had before the reserve. */
  function OwnerId(execution: string, stage: string, attempt: nat): string {
    (("raw-agent:" + execution) + ":" + stage) + ":" + Decimal(attempt)
  }

  lemma OwnersAgreeExactly(execution: string, stage: string, attempt: nat, stage': string, attempt': nat)
    ensures OwnerId(execution, stage, attempt) == OwnerId(execution, stage', attempt')
            <==> stage == stage' && attempt == attempt'
  {
    if OwnerId(execution, stage, attempt) == OwnerId(execution, stage', attempt') {
      var prefix := ("raw-agent:" + execution) + ":";
      LastFieldIsUnique(prefix + stage, Decimal(attempt), prefix + stage', Decimal(attempt'));
      DecimalReadsBack(attempt);
      DecimalReadsBack(attempt');
      assert (prefix + stage)[|prefix|..] == stage && (prefix + stage')[|prefix|..] == stage';
    }
  }

  /** What a host executed for a stage, and the reports of a second host that joined its store. */
  ghost predicate ShareAStore(
    local: bool, scripts: seq<ExecuteScript>, reports: seq<Report>,
    local': bool, scripts': seq<ExecuteScript>, reports': seq<Report>)
  {
    var (w, first) := Executions(FreshWorld(local), scripts, |scripts|);
    reports == first && reports' == Executions(Joining(w, local'), scripts', |scripts'|).1
  }

  /** Two hosts that share a store, an execution and a worker mint a common attempt id exactly
      when their stages differ and scope and counter agree: with one stage the store, which gave
      both their reservations, would have refused the second owner. */
  lemma HostsCollideExactly(
    local: bool, scripts: seq<ExecuteScript>, reports: seq<Report>,
    local': bool, scripts': seq<ExecuteScript>, reports': seq<Report>,
    execution: string, worker: string, stage: string, stage': string, j: nat, c: nat, k: nat, d: nat)
    requires ShareAStore(local, scripts, reports, local', scripts', reports')
    requires j < |reports| && 1 <= c <= reports[j].minted && k < |reports'| && 1 <= d <= reports'[k].minted
    ensures reports[j].scope >= 1 && reports'[k].scope >= 1
    ensures OwnerId(execution, stage, reports[j].scope - 1) != OwnerId(execution, stage', reports'[k].scope - 1) ==>
              (AttemptId(execution, worker, reports[j].scope, c) == AttemptId(execution, worker, reports'[k].scope, d)
               <==> stage != stage' && reports[j].scope == reports'[k].scope && c == d)
  {
    var (w, first) := Executions(FreshWorld(local), scripts, |scripts|);
    ExecutionsScope(FreshWorld(local), scripts, |scripts|);
    ExecutionsScope(Joining(w, local'), scripts', |scripts'|);
    OwnersAgreeExactly(execution, stage, reports[j].scope - 1, stage', reports'[k].scope - 1);
    AttemptIdsAgreeExactly(execution, worker, reports[j].scope, c, execution, worker, reports'[k].scope, d);
  }

  // ------------------------------------------------------------------
  // Where the promises fail
  // ------------------------------------------------------------------

  /** A granted budget can outlive its execution: `finish` cannot open the database, and
      the guard gives up on the budget because the hardware could not be released. */
  lemma BudgetCanOutliveItsExecution()
    ensures var s := ExecuteScript(
                       ReserveReplies(None, true, true, Granted, true, true),
                       RanTo(Completed(false), 1, FinishReplies(false, true, true, true)),
                       AbandonReplies(false, true, true));
            var (w, report) := Execution(FreshWorld(true), s);
            report.budget == Some(0) && BudgetResolutions(w.log, 0) == []
  {
    var s := ExecuteScript(
      ReserveReplies(None, true, true, Granted, true, true),
      RanTo(Completed(false), 1, FinishReplies(false, true, true, true)),
      AbandonReplies(false, true, true));
    var w := FreshWorld(true);
    assert Grants(s.reserve);
    ExecutionRan(w, s);
    ExecutionResolves(w, s, 0);
  }

  /** One worker selected for two stages: the store takes both owners, as the stages differ,
      and both hosts mint the same first id. */
  lemma TwoHostsMintTheSameId(
    local: bool, s: ExecuteScript, local': bool, t: ExecuteScript, execution: string, worker: string, stage: string,
    stage': string)
    requires Reserve(FreshWorld(local), s.reserve).1 && s.exit.minted >= 1
    requires Reserve(Joining(Execution(FreshWorld(local), s).0, local'), t.reserve).1 && t.exit.minted >= 1
    requires stage != stage'
    ensures var (w, first) := Execution(FreshWorld(local), s);
            var second := Execution(Joining(w, local'), t).1;
            && first.minted >= 1 && second.minted >= 1 && first.scope == second.scope == 1
            && OwnerId(execution, stage, 0) != OwnerId(execution, stage', 0)
            && AttemptId(execution, worker, first.scope, 1) == AttemptId(execution, worker, second.scope, 1)
  {
    OwnersAgreeExactly(execution, stage, 0, stage', 0);
  }
}
