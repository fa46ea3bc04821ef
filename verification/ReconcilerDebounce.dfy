/** The debounce protocol of the backlog reconciler: one set of flags behind a lock,
    and any number of tasks taking turns at its sections
    (crates/familiar-ai-daemon/src/backlog_reconciler.rs, lines 32-44 and 292-357). */
module ReconcilerDebounce {
  datatype Flags = Flags(scheduled: bool, running: bool, rerun: bool)

  const IDLE := Flags(false, false, false)

  /** The per-repository state. Each method is one section under its lock. */
  class RepoDebounce {
    var scheduled: bool
    var running: bool
    var rerun: bool

    function Value(): Flags
      reads this
    {
      Flags(scheduled, running, rerun)
    }

    constructor ()
      ensures Value() == IDLE
    {
      scheduled, running, rerun := false, false, false;
    }

    /** An event: answers whether the caller must spawn a timer task. */
    method Schedule() returns (spawn: bool)
      modifies this
      ensures (Value(), spawn) == ScheduleSection(old(Value()))
    {
      if running {
        rerun := true;
        return false;
      }
      if scheduled {
        return false;
      }
      scheduled := true;
      return true;
    }

    /** A task begins a reconciliation. */
    method Begin()
      modifies this
      ensures Value() == BeginSection(old(Value()))
    {
      scheduled := false;
      running := true;
    }

    /** A task ends a reconciliation: answers whether it must loop. */
    method End() returns (again: bool)
      modifies this
      ensures (Value(), again) == EndSection(old(Value()))
    {
      running := false;
      again := rerun;
      rerun := false;
    }
  }

  function ScheduleSection(f: Flags): (Flags, bool) {
    if f.running then (f.(rerun := true), false)
    else if f.scheduled then (f, false)
    else (f.(scheduled := true), true)
  }

  function BeginSection(f: Flags): Flags {
    f.(scheduled := false, running := true)
  }

  function EndSection(f: Flags): (Flags, bool) {
    (Flags(f.scheduled, false, false), f.rerun)
  }

  // ------------------------------------------------------------------
  // Interleavings
  // ------------------------------------------------------------------

  /** Where a live task is: about to be spawned, asleep on its timer, reconciling, or
      between the section that told it to loop and the one that begins again. */
  datatype Phase = Spawning | Sleeping | Reconciling | Looping

  /** The shared flags, the live tasks, and whether an event arrived after the latest
      reconciliation began. */
  datatype World = World(flags: Flags, tasks: map<nat, Phase>, unserved: bool)

  const QUIET := World(IDLE, map[], false)

  datatype Step =
    | Event(newTask: nat)  // a call of schedule; newTask names the task if one is spawned
    | Spawned(task: nat)
    | Begins(task: nat)
    | Ends(task: nat)

  predicate Enabled(w: World, step: Step) {
    match step
    case Event(newTask) => newTask !in w.tasks
    case Spawned(task) => task in w.tasks && w.tasks[task] == Spawning
    case Begins(task) => task in w.tasks && (w.tasks[task] == Sleeping || w.tasks[task] == Looping)
    case Ends(task) => task in w.tasks && w.tasks[task] == Reconciling
  }

  function Next(w: World, step: Step): World
    requires Enabled(w, step)
  {
    match step
    case Event(newTask) =>
      var (flags, spawn) := ScheduleSection(w.flags);
      World(flags, if spawn then w.tasks[newTask := Spawning] else w.tasks, true)
    case Spawned(task) => w.(tasks := w.tasks[task := Sleeping])
    case Begins(task) => World(BeginSection(w.flags), w.tasks[task := Reconciling], false)
    case Ends(task) =>
      var (flags, again) := EndSection(w.flags);
      w.(flags := flags, tasks := if again then w.tasks[task := Looping] else w.tasks - {task})
  }

  /** Every step of the schedule can be taken when its turn comes. */
  predicate Possible(w: World, steps: seq<Step>)
    decreases |steps|
  {
    steps == [] || (Enabled(w, steps[0]) && Possible(Next(w, steps[0]), steps[1..]))
  }

  function After(w: World, steps: seq<Step>): World
    requires Possible(w, steps)
    decreases |steps|
  {
    if steps == [] then w else After(Next(w, steps[0]), steps[1..])
  }

  // ------------------------------------------------------------------
  // No event is lost
  // ------------------------------------------------------------------

  predicate SomeTask(w: World, phase: Phase) {
    exists task :: task in w.tasks && w.tasks[task] == phase
  }

  /** Some task will begin a reconciliation: it is on its way to one, or it is
      reconciling and has been told to run again. */
  predicate Owed(w: World) {
    || SomeTask(w, Spawning) || SomeTask(w, Sleeping) || SomeTask(w, Looping)
    || (w.flags.rerun && SomeTask(w, Reconciling))
  }

  predicate Invariant(w: World) {
    && (w.flags.scheduled ==> SomeTask(w, Spawning) || SomeTask(w, Sleeping))
    && (w.flags.running ==> SomeTask(w, Reconciling))
    && (w.flags.rerun ==> w.flags.running)
    && (w.unserved ==> Owed(w))
  }

  lemma StepKeepsInvariant(w: World, step: Step)
    requires Invariant(w) && Enabled(w, step)
    ensures Invariant(Next(w, step))
  {
    var next := Next(w, step);
    match step
    case Event(newTask) =>
      if next.tasks != w.tasks {
        assert next.tasks[newTask] == Spawning;
      }
      KeptPhases(w, next, newTask);
    case Spawned(task) =>
      assert next.tasks[task] == Sleeping;
      KeptPhases(w, next, task);
    case Begins(task) =>
      assert next.tasks[task] == Reconciling;
    case Ends(task) =>
      if w.flags.rerun {
        assert next.tasks[task] == Looping;
      }
      KeptPhases(w, next, task);
  }

  /** A task that is in some phase and is not the one that moved is still there. */
  lemma KeptPhases(w: World, next: World, moved: nat)
    requires forall task :: task != moved ==> (task in w.tasks <==> task in next.tasks)
    requires forall task :: task != moved && task in w.tasks ==> next.tasks[task] == w.tasks[task]
    ensures forall phase :: SomeTask(w, phase) && !(moved in w.tasks && w.tasks[moved] == phase) ==>
              SomeTask(next, phase)
  {
  }

  /** Under every interleaving, whenever an event arrived after the latest
      reconciliation began, another beginning is owed. */
  lemma {:induction false} NoEventIsLost(w: World, steps: seq<Step>)
    requires Invariant(w) && Possible(w, steps)
    ensures Invariant(After(w, steps))
    decreases |steps|
  {
    if steps != [] {
      StepKeepsInvariant(w, steps[0]);
      NoEventIsLost(Next(w, steps[0]), steps[1..]);
    }
  }

  // ------------------------------------------------------------------
  // The debt is paid
  // ------------------------------------------------------------------

  function Weight(phase: Phase): nat {
    match phase
    case Spawning => 3
    case Sleeping => 2
    case Looping => 2
    case Reconciling => 1
  }

  function TaskWeight(tasks: map<nat, Phase>): nat
    decreases |tasks|
  {
    if tasks == map[] then 0
    else
      var task := Smallest(tasks.Keys);
      Weight(tasks[task]) + TaskWeight(tasks - {task})
  }

  function Smallest(keys: set<nat>): (least: nat)
    requires keys != {}
    ensures least in keys && forall key | key in keys :: least <= key
  {
    SmallestExists(keys);
    var least :| least in keys && forall key | key in keys :: least <= key;
    least
  }

  lemma {:induction false} SmallestExists(keys: set<nat>)
    requires keys != {}
    ensures exists least :: least in keys && forall key | key in keys :: least <= key
    decreases |keys|
  {
    var some :| some in keys;
    var others := keys - {some};
    if others == {} {
      assert keys == {some};
    } else {
      SmallestExists(others);
      var least :| least in others && forall key | key in others :: least <= key;
      var best := if some < least then some else least;
      assert forall key | key in keys :: key == some || key in others;
      assert best in keys && forall key | key in keys :: best <= key;
    }
  }

  /** The weight may be counted from any task. */
  lemma {:induction false} WeightOfOne(tasks: map<nat, Phase>, task: nat)
    requires task in tasks
    ensures TaskWeight(tasks) == Weight(tasks[task]) + TaskWeight(tasks - {task})
    decreases |tasks|
  {
    var first := Smallest(tasks.Keys);
    if first != task {
      WeightOfOne(tasks - {first}, task);
      assert tasks - {first} - {task} == tasks - {task} - {first};
      var rest := tasks - {task};
      assert first in rest && rest != map[];
      assert Smallest(rest.Keys) == first;
    }
  }

  /** How many steps the tasks can still take before the next event. */
  function Remaining(w: World): nat {
    TaskWeight(w.tasks) + if w.flags.rerun then 2 else 0
  }

  lemma TaskStepsRunDown(w: World, step: Step)
    requires Enabled(w, step) && !step.Event?
    ensures Remaining(Next(w, step)) < Remaining(w)
  {
    var next := Next(w, step);
    var task := match step case Spawned(t) => t case Begins(t) => t case Ends(t) => t;
    WeightOfOne(w.tasks, task);
    if task in next.tasks {
      WeightOfOne(next.tasks, task);
      assert next.tasks - {task} == w.tasks - {task};
    }
  }

  /** Once events stop, the tasks can take only so many steps. */
  lemma {:induction false} RunsDown(w: World, steps: seq<Step>)
    requires Possible(w, steps) && forall step | step in steps :: !step.Event?
    ensures |steps| + Remaining(After(w, steps)) <= Remaining(w)
    decreases |steps|
  {
    if steps != [] {
      assert steps[0] in steps;
      TaskStepsRunDown(w, steps[0]);
      RunsDown(Next(w, steps[0]), steps[1..]);
    }
  }

  /** No task can take a step. */
  ghost predicate Stuck(w: World) {
    forall step: Step :: !step.Event? ==> !Enabled(w, step)
  }

  /** A world in which no task can move has no tasks; then nothing is unserved. */
  lemma StuckMeansServed(w: World)
    requires Invariant(w) && Stuck(w)
    ensures w.tasks == map[] && !w.unserved
  {
    forall task | task in w.tasks ensures false {
      var step :=
        match w.tasks[task]
        case Spawning => Spawned(task)
        case Reconciling => Ends(task)
        case _ => Begins(task);
      assert Enabled(w, step);
    }
  }

  /** From any reachable world, every way of letting the tasks run ends after boundedly
      many steps, and by then a reconciliation has begun after the last event. */
  lemma EveryEventIsServed(past: seq<Step>, rest: seq<Step>)
    requires Possible(QUIET, past) && Possible(After(QUIET, past), rest)
    requires forall step | step in rest :: !step.Event?
    ensures |rest| <= Remaining(After(QUIET, past))
    ensures var end := After(After(QUIET, past), rest);
            Stuck(end) ==> end.tasks == map[] && !end.unserved
  {
    var w := After(QUIET, past);
    NoEventIsLost(QUIET, past);
    NoEventIsLost(w, rest);
    RunsDown(w, rest);
    var end := After(w, rest);
    if Stuck(end) {
      StuckMeansServed(end);
    }
  }

  // ------------------------------------------------------------------
  // Single flight, exactly
  // ------------------------------------------------------------------

  /** The window between a task leaving one section told to loop and entering the next. */
  predicate InHandOver(w: World) {
    SomeTask(w, Looping)
  }

  /** No event of the schedule lands in the hand-over window. */
  predicate AvoidsHandOver(w: World, steps: seq<Step>)
    requires Possible(w, steps)
    decreases |steps|
  {
    steps == [] || ((steps[0].Event? ==> !InHandOver(w)) && AvoidsHandOver(Next(w, steps[0]), steps[1..]))
  }

  /** At every moment of the schedule at most one task is live. */
  predicate SingleFlight(w: World, steps: seq<Step>)
    requires Possible(w, steps)
    decreases |steps|
  {
    |w.tasks| <= 1 && (steps == [] || SingleFlight(Next(w, steps[0]), steps[1..]))
  }

  /** With at most one task live, the flags tell exactly where it is. */
  predicate OneTask(w: World) {
    || (w.tasks == map[] && w.flags == IDLE)
    || (exists task :: task in w.tasks && w.tasks == map[task := w.tasks[task]] && FlagsOf(w.tasks[task], w.flags))
  }

  predicate FlagsOf(phase: Phase, flags: Flags) {
    match phase
    case Spawning | Sleeping => flags == Flags(true, false, false)
    case Reconciling => flags.running && !flags.scheduled
    case Looping => flags == IDLE
  }

  lemma OneTaskStep(w: World, step: Step)
    requires OneTask(w) && Enabled(w, step)
    ensures !(step.Event? && InHandOver(w)) ==> OneTask(Next(w, step))
    ensures step.Event? && InHandOver(w) ==> |Next(w, step).tasks| == 2
  {
    var next := Next(w, step);
    if w.tasks != map[] {
      var task :| task in w.tasks && w.tasks == map[task := w.tasks[task]];
      if step.Event? && InHandOver(w) {
        assert next.tasks == map[task := Looping, step.newTask := Spawning];
        assert next.tasks.Keys == {task, step.newTask};
      } else if step.Ends? && !w.flags.rerun {
        assert next.tasks == map[];
      } else {
        assert next.tasks == map[task := next.tasks[task]];
      }
    } else if step.Event? {
      assert next.tasks == map[step.newTask := Spawning];
    }
  }

  lemma OneTaskCounts(w: World)
    requires OneTask(w)
    ensures |w.tasks| <= 1
  {
    if w.tasks != map[] {
      var task :| task in w.tasks && w.tasks == map[task := w.tasks[task]];
      assert w.tasks.Keys == {task};
    }
  }

  /** A repository has at most one live task throughout a schedule exactly when no
      event of the schedule lands in a hand-over window. */
  lemma {:induction false} SingleFlightExactly(w: World, steps: seq<Step>)
    requires OneTask(w) && Possible(w, steps)
    ensures SingleFlight(w, steps) <==> AvoidsHandOver(w, steps)
    decreases |steps|
  {
    OneTaskCounts(w);
    if steps != [] {
      OneTaskStep(w, steps[0]);
      if !(steps[0].Event? && InHandOver(w)) {
        SingleFlightExactly(Next(w, steps[0]), steps[1..]);
      }
    }
  }

  // ------------------------------------------------------------------
  // At most one reconciliation, exactly
  // ------------------------------------------------------------------

  /** No two tasks are reconciling. */
  predicate NoOverlap(w: World) {
    forall a, b :: a in w.tasks && b in w.tasks && w.tasks[a] == Reconciling && w.tasks[b] == Reconciling ==> a == b
  }

  /** At no moment of the schedule are two tasks reconciling. */
  predicate NeverOverlaps(w: World, steps: seq<Step>)
    requires Possible(w, steps)
    decreases |steps|
  {
    NoOverlap(w) && (steps == [] || NeverOverlaps(Next(w, steps[0]), steps[1..]))
  }

  /** No task of the schedule begins while the flags say that one is running: the
      question that beginning a reconciliation does not ask. */
  predicate BeginsOnlyWhenIdle(w: World, steps: seq<Step>)
    requires Possible(w, steps)
    decreases |steps|
  {
    steps == [] || ((steps[0].Begins? ==> !w.flags.running) && BeginsOnlyWhenIdle(Next(w, steps[0]), steps[1..]))
  }

  /** The flag tells whether a task is reconciling, and there is at most one. */
  predicate RunningTold(w: World) {
    NoOverlap(w) && (w.flags.running <==> SomeTask(w, Reconciling))
  }

  lemma OverlapStep(w: World, step: Step)
    requires RunningTold(w) && Enabled(w, step)
    ensures !(step.Begins? && w.flags.running) ==> RunningTold(Next(w, step))
    ensures step.Begins? && w.flags.running ==> !NoOverlap(Next(w, step))
  {
    var next := Next(w, step);
    match step
    case Event(newTask) => KeptPhases(w, next, newTask);
    case Spawned(task) => KeptPhases(w, next, task);
    case Begins(task) =>
      assert next.tasks[task] == Reconciling;
      if w.flags.running {
        var other :| other in w.tasks && w.tasks[other] == Reconciling;
        assert other != task && next.tasks[other] == Reconciling;
      }
    case Ends(task) =>
  }

  /** At most one reconciliation runs throughout a schedule exactly when no task of it
      begins while one is running. */
  lemma {:induction false} OverlapExactly(w: World, steps: seq<Step>)
    requires RunningTold(w) && Possible(w, steps)
    ensures NeverOverlaps(w, steps) <==> BeginsOnlyWhenIdle(w, steps)
    decreases |steps|
  {
    if steps != [] {
      var next := Next(w, steps[0]);
      OverlapStep(w, steps[0]);
      if !(steps[0].Begins? && w.flags.running) {
        OverlapExactly(next, steps[1..]);
      } else {
        assert !NeverOverlaps(next, steps[1..]);
      }
    }
  }

  /** The promise, from the quiet state every repository starts in. */
  lemma OneReconciliationExactly(steps: seq<Step>)
    requires Possible(QUIET, steps)
    ensures NeverOverlaps(QUIET, steps) <==> BeginsOnlyWhenIdle(QUIET, steps)
  {
    OverlapExactly(QUIET, steps);
  }

  /** A single live task never overlaps itself, so keeping events out of the hand-over
      window keeps the promise. The converse fails: see `LateEventNeedNotOverlap`. */
  lemma {:induction false} SingleFlightNeverOverlaps(w: World, steps: seq<Step>)
    requires Possible(w, steps) && SingleFlight(w, steps)
    ensures NeverOverlaps(w, steps)
    decreases |steps|
  {
    forall a, b | a in w.tasks && b in w.tasks ensures a == b {
      if a != b {
        assert {a, b} <= w.tasks.Keys;
        CardinalityGrows({a, b}, w.tasks.Keys);
      }
    }
    if steps != [] { SingleFlightNeverOverlaps(Next(w, steps[0]), steps[1..]); }
  }

  lemma CardinalityGrows(a: set<nat>, b: set<nat>)
    requires a <= b
    ensures |a| <= |b|
  {
    assert b == a + (b - a);
  }

  /** A task about to loop, with the flags at rest: the hand-over window. */
  const HANDING_OVER := World(IDLE, map[0 := Looping], true)

  /** The looping task reconciles and ends before the second one begins. */
  lemma WaitingTaskDoesNotOverlap(rest: seq<Step>)
    requires rest == [Event(1), Begins(0), Ends(0), Spawned(1), Begins(1)]
    ensures Possible(HANDING_OVER, rest)
    ensures BeginsOnlyWhenIdle(HANDING_OVER, rest) && !AvoidsHandOver(HANDING_OVER, rest)
  {
    assert HANDING_OVER.tasks[0] == Looping;
    var w6 := Next(HANDING_OVER, Event(1));
    var w7 := Next(w6, Begins(0));
    var w8 := Next(w7, Ends(0));
    assert w8 == World(IDLE, map[1 := Spawning], false);
    var w9 := Next(w8, Spawned(1));
    Unroll(w9, Begins(1), []);
    Unroll(w8, Spawned(1), [Begins(1)]);
    Unroll(w7, Ends(0), [Spawned(1), Begins(1)]);
    Unroll(w6, Begins(0), [Ends(0), Spawned(1), Begins(1)]);
    Unroll(HANDING_OVER, Event(1), [Begins(0), Ends(0), Spawned(1), Begins(1)]);
  }

  /** Two events bring a repository into the window without any overlap. */
  lemma ReachesHandOver(rest: seq<Step>)
    requires Possible(HANDING_OVER, rest)
    ensures var steps := [Event(0), Spawned(0), Begins(0), Event(1), Ends(0)] + rest;
            && Possible(QUIET, steps) && After(QUIET, steps) == After(HANDING_OVER, rest)
            && (AvoidsHandOver(QUIET, steps) <==> AvoidsHandOver(HANDING_OVER, rest))
            && (BeginsOnlyWhenIdle(QUIET, steps) <==> BeginsOnlyWhenIdle(HANDING_OVER, rest))
  {
    var w1 := Next(QUIET, Event(0));
    var w2 := Next(w1, Spawned(0));
    var w3 := Next(w2, Begins(0));
    var w4 := Next(w3, Event(1));
    assert Next(w4, Ends(0)) == HANDING_OVER;
    var from4, from3 := [Ends(0)] + rest, [Event(1)] + ([Ends(0)] + rest);
    Unroll(w4, Ends(0), rest);
    Unroll(w3, Event(1), from4);
    Unroll(w2, Begins(0), from3);
    Unroll(w1, Spawned(0), [Begins(0)] + from3);
    Unroll(QUIET, Event(0), [Spawned(0)] + ([Begins(0)] + from3));
    assert [Event(0), Spawned(0), Begins(0), Event(1), Ends(0)] + rest
           == [Event(0)] + ([Spawned(0)] + ([Begins(0)] + from3));
  }

  /** An event in the window whose task waits long enough overlaps nothing. */
  lemma LateEventNeedNotOverlap()
    ensures exists steps :: Possible(QUIET, steps) && !AvoidsHandOver(QUIET, steps) && NeverOverlaps(QUIET, steps)
  {
    var rest := [Event(1), Begins(0), Ends(0), Spawned(1), Begins(1)];
    WaitingTaskDoesNotOverlap(rest);
    ReachesHandOver(rest);
    OneReconciliationExactly([Event(0), Spawned(0), Begins(0), Event(1), Ends(0)] + rest);
  }

  /** What is said of a schedule is said of its first step and of the rest. */
  lemma Unroll(w: World, step: Step, rest: seq<Step>)
    requires Enabled(w, step) && Possible(Next(w, step), rest)
    ensures Possible(w, [step] + rest) && After(w, [step] + rest) == After(Next(w, step), rest)
    ensures AvoidsHandOver(w, [step] + rest)
            <==> (step.Event? ==> !InHandOver(w)) && AvoidsHandOver(Next(w, step), rest)
    ensures BeginsOnlyWhenIdle(w, [step] + rest)
            <==> (step.Begins? ==> !w.flags.running) && BeginsOnlyWhenIdle(Next(w, step), rest)
  {
    assert ([step] + rest)[1..] == rest;
  }

  /** The promise that at most one reconciliation runs does not hold: an event in the
      window spawns a second task, and both reconcile at once. */
  lemma TwoReconcileAtOnce()
    ensures exists steps :: Possible(QUIET, steps)
                            && After(QUIET, steps).tasks == map[0 := Reconciling, 1 := Reconciling]
  {
    var w6 := Next(HANDING_OVER, Event(1));
    var w7 := Next(w6, Spawned(1));
    var w8 := Next(w7, Begins(1));
    var rest := [Event(1), Spawned(1), Begins(1), Begins(0)];
    assert Next(w8, Begins(0)).tasks == map[0 := Reconciling, 1 := Reconciling];
    Unroll(w8, Begins(0), []);
    Unroll(w7, Begins(1), [Begins(0)]);
    Unroll(w6, Spawned(1), [Begins(1), Begins(0)]);
    Unroll(HANDING_OVER, Event(1), [Spawned(1), Begins(1), Begins(0)]);
    ReachesHandOver(rest);
  }
}
