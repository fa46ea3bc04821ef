/** Selection of the next PRD and admission of a requested one
    (backlog.rs, lines 564-606, 749-792 and 829-886). */
module BacklogScheduler {
  import opened Wrappers
  import opened BacklogGraph
  import StringOrder

  datatype Status = Pending | InProgress | Completed | Blocked

  datatype BacklogEntry = BacklogEntry(prd: DiscoveredPrd, status: Status)

  datatype IneligibilityReason =
    | StatusInProgress | StatusCompleted | StatusBlocked
    | DependenciesIncomplete(dependencies: seq<PrdId>)
    | FrontMatterStatus(held: string)

  datatype NextError =
    | EmptyBacklog
    | InvalidGraph(verdict: Verdict)
    | NoEligiblePrd(reasons: seq<(PrdId, IneligibilityReason)>)

  datatype AdmissionError =
    | RunArchived(path: string)
    | RunStatus(path: string, reason: IneligibilityReason)
    | RunPath(path: string)
    | RunDependencies(path: string, dependencies: seq<PrdId>)

  /** The front-matter statuses that hold a PRD out of selection on every surface. */
  function FrontMatterHold(prd: DiscoveredPrd): Option<string> {
    match prd.frontMatterStatus
    case Some(status) =>
      if status == "draft" || status == "in_progress" || status == "blocked" then Some(status) else None
    case None => None
  }

  /** The status of each identity; of two entries with one identity the later counts. */
  function Statuses(entries: seq<BacklogEntry>): map<PrdId, Status> {
    if entries == [] then map[]
    else Statuses(entries[..|entries| - 1])[entries[|entries| - 1].prd.id := entries[|entries| - 1].status]
  }

  predicate IsCompleted(statuses: map<PrdId, Status>, id: PrdId) {
    id in statuses && statuses[id] == Completed
  }

  function Incomplete(statuses: map<PrdId, Status>, dependencies: seq<PrdId>): (incomplete: seq<PrdId>)
    ensures forall id :: id in incomplete <==> id in dependencies && !IsCompleted(statuses, id)
  {
    if dependencies == [] then []
    else
      (if IsCompleted(statuses, dependencies[0]) then [] else [dependencies[0]])
        + Incomplete(statuses, dependencies[1..])
  }

  /** Why an active entry may not run now; none means it may. */
  function ReasonFor(statuses: map<PrdId, Status>, entry: BacklogEntry): Option<IneligibilityReason> {
    if FrontMatterHold(entry.prd).Some? then Some(FrontMatterStatus(FrontMatterHold(entry.prd).value))
    else
      match entry.status
      case Pending =>
        var incomplete := Incomplete(statuses, entry.prd.dependencies);
        if incomplete == [] then None else Some(DependenciesIncomplete(incomplete))
      case InProgress => Some(StatusInProgress)
      case Completed => Some(StatusCompleted)
      case Blocked => Some(StatusBlocked)
  }

  predicate Eligible(statuses: map<PrdId, Status>, entry: BacklogEntry) {
    entry.prd.location == Active && ReasonFor(statuses, entry).None?
  }

  // ------------------------------------------------------------------
  // Sorting
  // ------------------------------------------------------------------

  /** By identity, and entries of one identity by path. */
  predicate Precedes(a: BacklogEntry, b: BacklogEntry) {
    Key(a.prd.id) < Key(b.prd.id) || (Key(a.prd.id) == Key(b.prd.id) && StringOrder.Less(a.prd.path, b.prd.path))
  }

  function Inserted(entry: BacklogEntry, sorted: seq<BacklogEntry>): (result: seq<BacklogEntry>)
    ensures multiset(result) == multiset(sorted) + multiset{entry}
  {
    if sorted == [] || Precedes(entry, sorted[0]) then
      assert [entry] + sorted == [entry] + sorted;
      [entry] + sorted
    else
      assert sorted == [sorted[0]] + sorted[1..];
      [sorted[0]] + Inserted(entry, sorted[1..])
  }

  /** The entries by identity and path; entries equal in both stay in their order. */
  function Sorted(entries: seq<BacklogEntry>): (result: seq<BacklogEntry>)
    ensures multiset(result) == multiset(entries)
  {
    if entries == [] then []
    else
      assert entries == entries[..|entries| - 1] + [entries[|entries| - 1]];
      Inserted(entries[|entries| - 1], Sorted(entries[..|entries| - 1]))
  }

  /** No entry stands behind one it precedes. */
  ghost predicate InOrder(entries: seq<BacklogEntry>) {
    forall i, j :: 0 <= i < j < |entries| ==> !Precedes(entries[j], entries[i])
  }

  lemma PrecedesIsWeakOrder(a: BacklogEntry, b: BacklogEntry, c: BacklogEntry)
    ensures Precedes(a, b) ==> !Precedes(b, a)
    ensures !Precedes(b, a) && !Precedes(c, b) ==> !Precedes(c, a)
  {
    if StringOrder.Less(a.prd.path, b.prd.path) && StringOrder.Less(b.prd.path, a.prd.path) {
      StringOrder.LessIsTransitive(a.prd.path, b.prd.path, a.prd.path);
      StringOrder.LessIsIrreflexive(a.prd.path);
    }
    if Precedes(c, a) && Key(a.prd.id) == Key(b.prd.id) == Key(c.prd.id) {
      StringOrder.LessIsTotal(a.prd.path, b.prd.path);
      if StringOrder.Less(a.prd.path, b.prd.path) {
        StringOrder.LessIsTransitive(c.prd.path, a.prd.path, b.prd.path);
      }
    }
  }

  lemma {:induction false} InsertedIsInOrder(entry: BacklogEntry, sorted: seq<BacklogEntry>)
    requires InOrder(sorted)
    ensures InOrder(Inserted(entry, sorted))
  {
    if sorted == [] {
    } else if Precedes(entry, sorted[0]) {
      forall j | 0 <= j < |sorted| ensures !Precedes(sorted[j], entry) {
        PrecedesIsWeakOrder(entry, sorted[0], sorted[j]);
      }
    } else {
      InsertedIsInOrder(entry, sorted[1..]);
      var rest := Inserted(entry, sorted[1..]);
      forall i | 0 <= i < |rest| ensures !Precedes(rest[i], sorted[0]) {
        assert rest[i] in multiset(rest);
        assert rest[i] in sorted[1..] || rest[i] == entry;
      }
    }
  }

  /** Sorting puts every entry behind what it does not precede, so identities ascend. */
  lemma {:induction false} SortedIsInOrder(entries: seq<BacklogEntry>)
    ensures InOrder(Sorted(entries))
    ensures forall i, j :: 0 <= i < j < |Sorted(entries)| ==>
              Key(Sorted(entries)[i].prd.id) <= Key(Sorted(entries)[j].prd.id)
  {
    if entries != [] {
      SortedIsInOrder(entries[..|entries| - 1]);
      InsertedIsInOrder(entries[|entries| - 1], Sorted(entries[..|entries| - 1]));
    }
  }

  // ------------------------------------------------------------------
  // Selection and admission
  // ------------------------------------------------------------------

  /** The first eligible entry of a sorted snapshot. */
  function FirstEligible(statuses: map<PrdId, Status>, sorted: seq<BacklogEntry>): Option<BacklogEntry> {
    if sorted == [] then None
    else if Eligible(statuses, sorted[0]) then Some(sorted[0])
    else FirstEligible(statuses, sorted[1..])
  }

  /** Why each active entry was passed over. */
  function Reasons(statuses: map<PrdId, Status>, sorted: seq<BacklogEntry>): seq<(PrdId, IneligibilityReason)> {
    if sorted == [] then []
    else
      (if sorted[0].prd.location == Archived || ReasonFor(statuses, sorted[0]).None? then []
       else [(sorted[0].prd.id, ReasonFor(statuses, sorted[0]).value)])
      + Reasons(statuses, sorted[1..])
  }

  /** The selector as a function of the snapshot. */
  function Selected(entries: seq<BacklogEntry>): Option<BacklogEntry> {
    FirstEligible(Statuses(Sorted(entries)), Sorted(entries))
  }

  /** The selector as the source runs it: validate, sort, scan. `entries` is the
      snapshot the status store answers with. */
  method Next(discovered: seq<DiscoveredPrd>, entries: seq<BacklogEntry>)
    returns (result: Result<DiscoveredPrd, NextError>)
    ensures discovered == [] ==> result == Failure(EmptyBacklog)
    ensures discovered != [] ==>
              (result.Failure? && result.error.InvalidGraph?
               <==> !(DependenciesPresent(discovered) && Acyclic(GraphOf(discovered))))
    ensures discovered != [] && DependenciesPresent(discovered) && Acyclic(GraphOf(discovered)) ==>
              result == match Selected(entries)
                        case Some(entry) => Success(entry.prd)
                        case None => Failure(NoEligiblePrd(Reasons(Statuses(Sorted(entries)), Sorted(entries))))
  {
    if discovered == [] {
      return Failure(EmptyBacklog);
    }
    var verdict := ValidateGraph(discovered);
    if !verdict.Accepted? {
      return Failure(InvalidGraph(verdict));
    }
    var sorted := Sorted(entries);
    var statuses := Statuses(sorted);
    var reasons: seq<(PrdId, IneligibilityReason)> := [];
    for i := 0 to |sorted|
      invariant FirstEligible(statuses, sorted) == FirstEligible(statuses, sorted[i..])
      invariant Reasons(statuses, sorted) == reasons + Reasons(statuses, sorted[i..])
    {
      assert sorted[i..][1..] == sorted[i + 1..];
      var entry := sorted[i];
      if entry.prd.location == Archived {
        continue;
      }
      var reason := ReasonFor(statuses, entry);
      if reason.None? {
        return Success(entry.prd);
      }
      reasons := reasons + [(entry.prd.id, reason.value)];
    }
    assert reasons + Reasons(statuses, []) == reasons;
    return Failure(NoEligiblePrd(reasons));
  }

  function FindByPath(entries: seq<BacklogEntry>, path: string): Option<BacklogEntry> {
    if entries == [] then None
    else if entries[0].prd.path == path then Some(entries[0])
    else FindByPath(entries[1..], path)
  }

  function StatusReason(status: Status): IneligibilityReason
    requires status != Pending
  {
    match status
    case InProgress => StatusInProgress
    case Completed => StatusCompleted
    case Blocked => StatusBlocked
  }

  function Admit(entries: seq<BacklogEntry>, target: DiscoveredPrd): Result<(), AdmissionError> {
    if target.location == Archived then Failure(RunArchived(target.path))
    else if FrontMatterHold(target).Some? then
      Failure(RunStatus(target.path, FrontMatterStatus(FrontMatterHold(target).value)))
    else
      match FindByPath(entries, target.path)
      case None => Failure(RunPath(target.path))
      case Some(entry) =>
        if entry.status != Pending then Failure(RunStatus(target.path, StatusReason(entry.status)))
        else
          var incomplete := Incomplete(Statuses(entries), target.dependencies);
          if incomplete != [] then Failure(RunDependencies(target.path, incomplete)) else Success(())
  }

  // ------------------------------------------------------------------
  // The selector and the admission check agree
  // ------------------------------------------------------------------

  /** A snapshot names every identity and every path once. */
  ghost predicate Snapshot(entries: seq<BacklogEntry>) {
    forall i, j :: 0 <= i < j < |entries| ==>
      entries[i].prd.id != entries[j].prd.id && entries[i].prd.path != entries[j].prd.path
  }

  lemma {:induction false} StatusesHold(entries: seq<BacklogEntry>)
    ensures forall id :: id in Statuses(entries) ==>
              exists entry :: entry in entries && entry.prd.id == id && entry.status == Statuses(entries)[id]
    ensures forall entry :: entry in entries ==> entry.prd.id in Statuses(entries)
  {
    if entries != [] {
      var rest, last := entries[..|entries| - 1], entries[|entries| - 1];
      StatusesHold(rest);
      assert forall entry :: entry in entries <==> entry in rest || entry == last;
    }
  }

  /** With identities unique, the status of an identity is that of its entry. */
  lemma StatusOfEntry(entries: seq<BacklogEntry>, entry: BacklogEntry)
    requires Snapshot(entries) && entry in entries
    ensures entry.prd.id in Statuses(entries) && Statuses(entries)[entry.prd.id] == entry.status
  {
    StatusesHold(entries);
    var other :| other in entries && other.prd.id == entry.prd.id && other.status == Statuses(entries)[entry.prd.id];
    var i :| 0 <= i < |entries| && entries[i] == entry;
    var j :| 0 <= j < |entries| && entries[j] == other;
  }

  lemma SameMembers(a: seq<BacklogEntry>, b: seq<BacklogEntry>)
    requires multiset(a) == multiset(b)
    ensures forall entry :: entry in a <==> entry in b
  {
    assert forall entry :: entry in a <==> entry in multiset(a);
    assert forall entry :: entry in b <==> entry in multiset(b);
  }

  /** Sorting keeps a snapshot a snapshot and changes no status. */
  lemma SortingKeepsStatuses(entries: seq<BacklogEntry>)
    requires Snapshot(entries)
    ensures Statuses(Sorted(entries)) == Statuses(entries)
  {
    var sorted := Sorted(entries);
    SameMembers(sorted, entries);
    StatusesHold(sorted);
    StatusesHold(entries);
    forall id | id in Statuses(sorted)
      ensures id in Statuses(entries) && Statuses(entries)[id] == Statuses(sorted)[id]
    {
      var entry :| entry in sorted && entry.prd.id == id && entry.status == Statuses(sorted)[id];
      StatusOfEntry(entries, entry);
    }
    assert Statuses(sorted).Keys == Statuses(entries).Keys;
  }

  lemma {:induction false} FindsItself(entries: seq<BacklogEntry>, entry: BacklogEntry)
    requires Snapshot(entries) && entry in entries
    ensures FindByPath(entries, entry.prd.path) == Some(entry)
  {
    if entries[0] != entry {
      FindsItself(entries[1..], entry);
      var i :| 0 <= i < |entries| && entries[i] == entry;
      assert entries[0].prd.path != entries[i].prd.path;
    } else {
    }
  }

  /** An entry of the snapshot is admitted exactly when it is eligible. */
  lemma AdmittedIsEligible(entries: seq<BacklogEntry>, entry: BacklogEntry)
    requires Snapshot(entries) && entry in entries
    ensures Admit(entries, entry.prd).Success? <==> Eligible(Statuses(entries), entry)
  {
    FindsItself(entries, entry);
  }

  lemma {:induction false} FirstEligibleIsLeast(statuses: map<PrdId, Status>, sorted: seq<BacklogEntry>)
    requires InOrder(sorted)
    ensures var first := FirstEligible(statuses, sorted);
            && (first.Some? ==> first.value in sorted && Eligible(statuses, first.value))
            && (forall entry | entry in sorted && Eligible(statuses, entry) ::
                  first.Some? && Key(first.value.prd.id) <= Key(entry.prd.id))
  {
    if sorted != [] && !Eligible(statuses, sorted[0]) {
      FirstEligibleIsLeast(statuses, sorted[1..]);
      assert forall entry :: entry in sorted <==> entry == sorted[0] || entry in sorted[1..];
    }
  }

  /** The selector picks the least identity the admission check accepts, and picks
      nothing exactly when the check accepts nothing. */
  lemma SelectorAgreesWithAdmission(entries: seq<BacklogEntry>)
    requires Snapshot(entries)
    ensures Selected(entries).None? <==> forall entry | entry in entries :: Admit(entries, entry.prd).Failure?
    ensures Selected(entries).Some? ==>
              var chosen := Selected(entries).value;
              && chosen in entries && Admit(entries, chosen.prd).Success?
              && forall entry | entry in entries && Admit(entries, entry.prd).Success? ::
                   Key(chosen.prd.id) <= Key(entry.prd.id)
  {
    var sorted := Sorted(entries);
    SameMembers(sorted, entries);
    SortedIsInOrder(entries);
    SortingKeepsStatuses(entries);
    FirstEligibleIsLeast(Statuses(entries), sorted);
    forall entry | entry in entries ensures Admit(entries, entry.prd).Success? <==> Eligible(Statuses(entries), entry) {
      AdmittedIsEligible(entries, entry);
    }
  }

  // ------------------------------------------------------------------
  // What may run, and why the rest may not
  // ------------------------------------------------------------------

  /** Another machine's front matter holds the PRD. */
  predicate HeldElsewhere(prd: DiscoveredPrd) {
    prd.frontMatterStatus in {Some("draft"), Some("in_progress"), Some("blocked")}
  }

  ghost predicate CompletedInSnapshot(entries: seq<BacklogEntry>, id: PrdId) {
    exists entry :: entry in entries && entry.prd.id == id && entry.status == Completed
  }

  /** What an entry must be for its PRD to run now. */
  ghost predicate MayRun(entries: seq<BacklogEntry>, entry: BacklogEntry) {
    && entry.prd.location == Active && entry.status == Pending && !HeldElsewhere(entry.prd)
    && forall dep | dep in entry.prd.dependencies :: CompletedInSnapshot(entries, dep)
  }

  /** These are the dependencies that are not completed, each as often as it is named. */
  ghost predicate Lacking(entries: seq<BacklogEntry>, all: seq<PrdId>, some: seq<PrdId>) {
    some != []
    && forall id :: multiset(some)[id] == if CompletedInSnapshot(entries, id) then 0 else multiset(all)[id]
  }

  /** The one reason an active entry that may not run is passed over with. */
  ghost predicate Explains(entries: seq<BacklogEntry>, entry: BacklogEntry, reason: IneligibilityReason) {
    if HeldElsewhere(entry.prd) then reason == FrontMatterStatus(entry.prd.frontMatterStatus.value)
    else
      match entry.status
      case InProgress => reason == StatusInProgress
      case Completed => reason == StatusCompleted
      case Blocked => reason == StatusBlocked
      case Pending =>
        reason.DependenciesIncomplete? && Lacking(entries, entry.prd.dependencies, reason.dependencies)
  }

  lemma HoldsAreFrontMatter(prd: DiscoveredPrd)
    ensures FrontMatterHold(prd).Some? <==> HeldElsewhere(prd)
    ensures HeldElsewhere(prd) ==> FrontMatterHold(prd) == prd.frontMatterStatus
  {
  }

  lemma CompletedIsInSnapshot(entries: seq<BacklogEntry>, id: PrdId)
    requires Snapshot(entries)
    ensures IsCompleted(Statuses(entries), id) <==> CompletedInSnapshot(entries, id)
  {
    StatusesHold(entries);
    if entry :| entry in entries && entry.prd.id == id && entry.status == Completed {
      StatusOfEntry(entries, entry);
    }
  }

  lemma {:induction false} IncompleteCounts(statuses: map<PrdId, Status>, dependencies: seq<PrdId>, id: PrdId)
    ensures multiset(Incomplete(statuses, dependencies))[id]
            == if IsCompleted(statuses, id) then 0 else multiset(dependencies)[id]
  {
    if dependencies != [] {
      IncompleteCounts(statuses, dependencies[1..], id);
      assert dependencies == [dependencies[0]] + dependencies[1..];
    }
  }

  lemma IncompleteIsLacking(entries: seq<BacklogEntry>, dependencies: seq<PrdId>)
    requires Snapshot(entries)
    ensures var incomplete := Incomplete(Statuses(entries), dependencies);
            && (incomplete == [] <==> forall dep | dep in dependencies :: CompletedInSnapshot(entries, dep))
            && (incomplete != [] ==> Lacking(entries, dependencies, incomplete))
  {
    var incomplete := Incomplete(Statuses(entries), dependencies);
    forall id
      ensures IsCompleted(Statuses(entries), id) <==> CompletedInSnapshot(entries, id)
      ensures multiset(incomplete)[id] == if CompletedInSnapshot(entries, id) then 0 else multiset(dependencies)[id]
    {
      CompletedIsInSnapshot(entries, id);
      IncompleteCounts(Statuses(entries), dependencies, id);
    }
    if incomplete != [] {
      assert incomplete[0] in incomplete;
    }
  }

  lemma EligibleMayRun(entries: seq<BacklogEntry>, entry: BacklogEntry)
    requires Snapshot(entries)
    ensures Eligible(Statuses(entries), entry) <==> MayRun(entries, entry)
    ensures ReasonFor(Statuses(entries), entry).Some? ==>
              Explains(entries, entry, ReasonFor(Statuses(entries), entry).value)
  {
    HoldsAreFrontMatter(entry.prd);
    IncompleteIsLacking(entries, entry.prd.dependencies);
  }

  /** Admission accepts an entry of the snapshot exactly when it may run, and refuses an active
      one with the reason that explains it. */
  lemma AdmitsExactly(entries: seq<BacklogEntry>, entry: BacklogEntry)
    requires Snapshot(entries) && entry in entries
    ensures var admitted := Admit(entries, entry.prd);
            && (admitted.Success? <==> MayRun(entries, entry))
            && (entry.prd.location == Archived ==> admitted == Failure(RunArchived(entry.prd.path)))
            && (entry.prd.location == Active && !MayRun(entries, entry) ==>
                  exists reason :: Explains(entries, entry, reason) && admitted == Failure(Refusal(entry, reason)))
  {
    FindsItself(entries, entry);
    EligibleMayRun(entries, entry);
    if entry.prd.location == Active && !MayRun(entries, entry) {
      assert Admit(entries, entry.prd)
          == Failure(Refusal(entry, ReasonFor(Statuses(entries), entry).value));
    }
  }

  /** How admission words a reason. */
  function Refusal(entry: BacklogEntry, reason: IneligibilityReason): AdmissionError {
    if reason.DependenciesIncomplete? then RunDependencies(entry.prd.path, reason.dependencies)
    else RunStatus(entry.prd.path, reason)
  }

  /** The selector picks the least entry that may run, and nothing exactly when none may. */
  lemma SelectsExactly(entries: seq<BacklogEntry>)
    requires Snapshot(entries)
    ensures Selected(entries).None? <==> forall entry | entry in entries :: !MayRun(entries, entry)
    ensures Selected(entries).Some? ==>
              var chosen := Selected(entries).value;
              && chosen in entries && MayRun(entries, chosen)
              && forall entry | entry in entries && MayRun(entries, entry) :: Key(chosen.prd.id) <= Key(entry.prd.id)
  {
    SelectorAgreesWithAdmission(entries);
    forall entry | entry in entries ensures Admit(entries, entry.prd).Success? <==> MayRun(entries, entry) {
      AdmitsExactly(entries, entry);
    }
  }

  /** The active entries of a list, in its order. */
  function ActiveOf(entries: seq<BacklogEntry>): seq<BacklogEntry> {
    if entries == [] then []
    else (if entries[0].prd.location == Active then [entries[0]] else []) + ActiveOf(entries[1..])
  }

  /** Each of these entries has its reason, in order. */
  ghost predicate AllExplained(
    entries: seq<BacklogEntry>, passed: seq<BacklogEntry>, reasons: seq<(PrdId, IneligibilityReason)>)
  {
    && |reasons| == |passed|
    && forall k :: 0 <= k < |passed| ==> reasons[k].0 == passed[k].prd.id && Explains(entries, passed[k], reasons[k].1)
  }

  lemma {:induction false} ReasonsExplain(entries: seq<BacklogEntry>, scanned: seq<BacklogEntry>)
    requires Snapshot(entries) && forall entry | entry in scanned :: !MayRun(entries, entry)
    ensures AllExplained(entries, ActiveOf(scanned), Reasons(Statuses(entries), scanned))
  {
    if scanned != [] {
      ReasonsExplain(entries, scanned[1..]);
      EligibleMayRun(entries, scanned[0]);
      assert scanned[0] in scanned;
    }
  }

  /** When nothing is selected, every active entry is listed, by identity and path, with the
      one reason that explains it. */
  lemma EveryActiveEntryIsExplained(entries: seq<BacklogEntry>)
    requires Snapshot(entries) && Selected(entries).None?
    ensures var sorted := Sorted(entries);
            && multiset(sorted) == multiset(entries) && InOrder(sorted)
            && AllExplained(entries, ActiveOf(sorted), Reasons(Statuses(sorted), sorted))
  {
    SelectsExactly(entries);
    SortedIsInOrder(entries);
    SortingKeepsStatuses(entries);
    SameMembers(Sorted(entries), entries);
    ReasonsExplain(entries, Sorted(entries));
  }
}
