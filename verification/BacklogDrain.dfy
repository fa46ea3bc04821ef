/** Progress: on any accepted backlog, selecting and running what is selected runs exactly
    the pending entries that no hold starves, each after its dependencies. */
module BacklogDrain {
  import opened Wrappers
  import opened BacklogGraph
  import opened BacklogScheduler

  /** A snapshot of an accepted backlog. */
  ghost predicate OfAccepted(prds: seq<DiscoveredPrd>, entries: seq<BacklogEntry>) {
    && DependenciesPresent(prds) && Acyclic(GraphOf(prds))
    && Snapshot(entries)
    && (forall entry | entry in entries :: GraphEdges(prds, entry.prd))
    && (forall id :: id in GraphOf(prds) ==> HasEntry(entries, id))
  }

  predicate GraphEdges(prds: seq<DiscoveredPrd>, prd: DiscoveredPrd) {
    prd.id in GraphOf(prds) && GraphOf(prds)[prd.id] == prd.dependencies
  }

  ghost predicate HasEntry(entries: seq<BacklogEntry>, id: PrdId) {
    exists entry :: entry in entries && entry.prd.id == id
  }

  // ------------------------------------------------------------------
  // Starvation
  // ------------------------------------------------------------------

  /** The selector may come to run the entry, if not now then once its dependencies are completed. */
  predicate Runnable(entry: BacklogEntry) {
    entry.status == Pending && entry.prd.location == Active && FrontMatterHold(entry.prd).None?
  }

  /** Not completed, and no completion changes that: the entry is held, in progress, blocked,
      or archived. */
  predicate Obstacle(entry: BacklogEntry) {
    entry.status != Completed && !Runnable(entry)
  }

  /** From the entry down through dependencies that are not completed to an obstacle, which
      may be the entry itself. */
  ghost predicate StarvingChain(entries: seq<BacklogEntry>, entry: BacklogEntry, chain: seq<BacklogEntry>) {
    && chain != [] && chain[0] == entry && Obstacle(chain[|chain| - 1])
    && (forall i :: 0 <= i < |chain| ==> chain[i] in entries && chain[i].status != Completed)
    && (forall i :: 0 <= i < |chain| - 1 ==> chain[i + 1].prd.id in chain[i].prd.dependencies)
  }

  ghost predicate Starved(entries: seq<BacklogEntry>, entry: BacklogEntry) {
    exists chain :: StarvingChain(entries, entry, chain)
  }

  /** Pending, active and not starved. */
  ghost predicate IsFree(entries: seq<BacklogEntry>, entry: BacklogEntry) {
    entry.status == Pending && entry.prd.location == Active && !Starved(entries, entry)
  }

  lemma ObstacleStarves(entries: seq<BacklogEntry>, entry: BacklogEntry)
    requires entry in entries && Obstacle(entry)
    ensures Starved(entries, entry)
  {
    assert StarvingChain(entries, entry, [entry]);
  }

  lemma DependencyStarves(entries: seq<BacklogEntry>, entry: BacklogEntry, below: BacklogEntry)
    requires entry in entries && entry.status != Completed && below.prd.id in entry.prd.dependencies
    requires Starved(entries, below)
    ensures Starved(entries, entry)
  {
    var chain :| StarvingChain(entries, below, chain);
    assert StarvingChain(entries, entry, [entry] + chain);
  }

  /** Following incomplete dependencies downwards, ranks fall: an entry that is not starved
      rests on one that is eligible now. */
  lemma {:induction false} SomethingIsEligible(
    prds: seq<DiscoveredPrd>, entries: seq<BacklogEntry>, rank: map<PrdId, nat>, entry: BacklogEntry)
    requires OfAccepted(prds, entries) && Ranked(GraphOf(prds), rank)
    requires entry in entries && entry.status != Completed && !Starved(entries, entry)
    ensures exists ready :: ready in entries && Eligible(Statuses(entries), ready)
    decreases rank[entry.prd.id]
  {
    var g, incomplete := GraphOf(prds), Incomplete(Statuses(entries), entry.prd.dependencies);
    assert GraphEdges(prds, entry.prd);
    if Obstacle(entry) {
      ObstacleStarves(entries, entry);
    } else if incomplete == [] {
      assert Eligible(Statuses(entries), entry);
    } else {
      var dep := incomplete[0];
      assert dep in incomplete;
      PresentMeansClosed(prds);
      assert Edge(g, entry.prd.id, dep);
      assert HasEntry(entries, dep);
      var below :| below in entries && below.prd.id == dep;
      StatusOfEntry(entries, below);
      if Starved(entries, below) {
        DependencyStarves(entries, entry, below);
      }
      SomethingIsEligible(prds, entries, rank, below);
    }
  }

  lemma EligibleIsNotStarved(entries: seq<BacklogEntry>, entry: BacklogEntry)
    requires Snapshot(entries) && Eligible(Statuses(entries), entry)
    ensures !Starved(entries, entry)
  {
    EligibleIsReady(Statuses(entries), entry);
    forall chain: seq<BacklogEntry> ensures !StarvingChain(entries, entry, chain) {
      if StarvingChain(entries, entry, chain) && |chain| > 1 {
        StatusOfEntry(entries, chain[1]);
      }
    }
  }

  /** Nothing is selected exactly when every pending active entry is held, or depends, through
      entries that are not completed, on one that is held, in progress, blocked, or archived
      without being completed. */
  lemma NothingIsSelectedExactly(prds: seq<DiscoveredPrd>, entries: seq<BacklogEntry>)
    requires OfAccepted(prds, entries)
    ensures Selected(entries).None?
            <==> forall entry | entry in entries && entry.status == Pending && entry.prd.location == Active ::
                   Starved(entries, entry)
  {
    SelectorAgreesWithAdmission(entries);
    if entry :| entry in entries && IsFree(entries, entry) {
      var rank :| Ranked(GraphOf(prds), rank);
      SomethingIsEligible(prds, entries, rank, entry);
      var ready :| ready in entries && Eligible(Statuses(entries), ready);
      AdmittedIsEligible(entries, ready);
    }
    if Selected(entries).Some? {
      ChosenIsEligible(entries);
      EligibleIsReady(Statuses(entries), Selected(entries).value);
      EligibleIsNotStarved(entries, Selected(entries).value);
    }
  }

  // ------------------------------------------------------------------
  // Draining
  // ------------------------------------------------------------------

  function CompletedEntry(entry: BacklogEntry, id: PrdId): BacklogEntry {
    if entry.prd.id == id then entry.(status := Completed) else entry
  }

  /** The snapshot after a PRD was run to completion. */
  function Complete(entries: seq<BacklogEntry>, id: PrdId): (after: seq<BacklogEntry>)
    ensures |after| == |entries| && forall i :: 0 <= i < |entries| ==> after[i] == CompletedEntry(entries[i], id)
  {
    seq(|entries|, i requires 0 <= i < |entries| => CompletedEntry(entries[i], id))
  }

  function PendingIds(entries: seq<BacklogEntry>): set<PrdId> {
    set entry | entry in entries && entry.status == Pending :: entry.prd.id
  }

  lemma ChosenIsEligible(entries: seq<BacklogEntry>)
    requires Snapshot(entries) && Selected(entries).Some?
    ensures Selected(entries).value in entries && Eligible(Statuses(entries), Selected(entries).value)
  {
    SelectorAgreesWithAdmission(entries);
    AdmittedIsEligible(entries, Selected(entries).value);
  }

  lemma EligibleIsReady(statuses: map<PrdId, Status>, entry: BacklogEntry)
    requires Eligible(statuses, entry)
    ensures entry.status == Pending && forall dep :: dep in entry.prd.dependencies ==> IsCompleted(statuses, dep)
  {
    var incomplete := Incomplete(statuses, entry.prd.dependencies);
    assert forall dep :: dep !in incomplete;
  }

  lemma ChosenIsPending(entries: seq<BacklogEntry>)
    requires Snapshot(entries) && Selected(entries).Some?
    ensures var id := Selected(entries).value.prd.id;
            id in PendingIds(entries) && PendingIds(Complete(entries, id)) == PendingIds(entries) - {id}
  {
    ChosenIsEligible(entries);
    EligibleIsReady(Statuses(entries), Selected(entries).value);
    CompletingRemovesOne(entries, Selected(entries).value);
  }

  lemma CompletingRemovesOne(entries: seq<BacklogEntry>, chosen: BacklogEntry)
    requires Snapshot(entries) && chosen in entries && chosen.status == Pending
    ensures PendingIds(Complete(entries, chosen.prd.id)) == PendingIds(entries) - {chosen.prd.id}
  {
    var after := Complete(entries, chosen.prd.id);
    forall id | id in PendingIds(entries) - {chosen.prd.id} ensures id in PendingIds(after) {
      var entry :| entry in entries && entry.status == Pending && entry.prd.id == id;
      var i :| 0 <= i < |entries| && entries[i] == entry;
      assert after[i] == entry;
    }
    forall id | id in PendingIds(after) ensures id in PendingIds(entries) - {chosen.prd.id} {
      var entry :| entry in after && entry.status == Pending && entry.prd.id == id;
      var i :| 0 <= i < |after| && after[i] == entry;
      assert entries[i] == entry;
    }
  }

  /** Select, complete, repeat: the order in which PRDs are run. */
  ghost function DrainOrder(entries: seq<BacklogEntry>): seq<PrdId>
    requires Snapshot(entries)
    decreases |PendingIds(entries)|
  {
    match Selected(entries)
    case None => []
    case Some(chosen) =>
      ChosenIsPending(entries);
      [chosen.prd.id] + DrainOrder(Complete(entries, chosen.prd.id))
  }

  predicate CompletedIn(entries: seq<BacklogEntry>, id: PrdId) {
    exists i :: 0 <= i < |entries| && entries[i].prd.id == id && entries[i].status == Completed
  }

  lemma CompletedMeansCompletedIn(entries: seq<BacklogEntry>, id: PrdId)
    requires Snapshot(entries)
    ensures IsCompleted(Statuses(entries), id) <==> CompletedIn(entries, id)
  {
    if IsCompleted(Statuses(entries), id) {
      StatusesHold(entries);
      var entry :| entry in entries && entry.prd.id == id && entry.status == Completed;
    }
    if CompletedIn(entries, id) {
      var i :| 0 <= i < |entries| && entries[i].prd.id == id && entries[i].status == Completed;
      StatusOfEntry(entries, entries[i]);
    }
  }

  lemma CompletingKeepsSnapshot(entries: seq<BacklogEntry>, id: PrdId)
    requires Snapshot(entries)
    ensures Snapshot(Complete(entries, id))
  {
  }

  lemma CompletingMarksOne(entries: seq<BacklogEntry>, chosen: BacklogEntry, id: PrdId)
    requires Snapshot(entries) && chosen in entries
    ensures IsCompleted(Statuses(Complete(entries, chosen.prd.id)), id)
            <==> IsCompleted(Statuses(entries), id) || id == chosen.prd.id
  {
    var after := Complete(entries, chosen.prd.id);
    CompletingKeepsSnapshot(entries, chosen.prd.id);
    CompletedMeansCompletedIn(entries, id);
    CompletedMeansCompletedIn(after, id);
    if CompletedIn(entries, id) {
      var i :| 0 <= i < |entries| && entries[i].prd.id == id && entries[i].status == Completed;
      assert after[i].prd.id == id && after[i].status == Completed;
    }
    var c :| 0 <= c < |entries| && entries[c] == chosen;
    assert after[c].prd.id == chosen.prd.id && after[c].status == Completed;
  }

  lemma CompletingStaysAccepted(prds: seq<DiscoveredPrd>, entries: seq<BacklogEntry>, id: PrdId)
    requires OfAccepted(prds, entries)
    ensures OfAccepted(prds, Complete(entries, id))
  {
    var after := Complete(entries, id);
    CompletingKeepsSnapshot(entries, id);
    forall other | other in GraphOf(prds) ensures HasEntry(after, other) {
      assert HasEntry(entries, other);
      var entry :| entry in entries && entry.prd.id == other;
      var i :| 0 <= i < |entries| && entries[i] == entry;
      assert after[i] in after;
    }
    forall entry | entry in after ensures GraphEdges(prds, entry.prd) {
      var i :| 0 <= i < |after| && after[i] == entry;
      assert entries[i] in entries && entry == CompletedEntry(entries[i], id);
    }
  }

  /** A chain that starves passes no eligible entry, so completing one leaves the chain. */
  lemma CompletingKeepsStarvation(entries: seq<BacklogEntry>, chosen: BacklogEntry, entry: BacklogEntry)
    requires Snapshot(entries) && chosen in entries && Eligible(Statuses(entries), chosen)
    ensures Starved(entries, entry) <==> Starved(Complete(entries, chosen.prd.id), entry)
  {
    var after := Complete(entries, chosen.prd.id);
    forall chain: seq<BacklogEntry>
      ensures StarvingChain(entries, entry, chain) <==> StarvingChain(after, entry, chain)
    {
      if StarvingChain(entries, entry, chain) {
        forall k: nat | k < |chain| ensures chain[k] in after {
          ChainAvoids(entries, chosen, chain, k);
          var i :| 0 <= i < |entries| && entries[i] == chain[k];
          assert after[i] == chain[k];
        }
      }
      if StarvingChain(after, entry, chain) {
        forall k: nat | k < |chain| ensures chain[k] in entries {
          var i :| 0 <= i < |after| && after[i] == chain[k];
          assert entries[i] == chain[k];
        }
      }
    }
  }

  lemma ChainAvoids(entries: seq<BacklogEntry>, chosen: BacklogEntry, chain: seq<BacklogEntry>, k: nat)
    requires Snapshot(entries) && chosen in entries && Eligible(Statuses(entries), chosen)
    requires k < |chain| && StarvingChain(entries, chain[0], chain)
    ensures chain[k].prd.id != chosen.prd.id
  {
    if chain[k].prd.id == chosen.prd.id {
      var i :| 0 <= i < |entries| && entries[i] == chain[k];
      var j :| 0 <= j < |entries| && entries[j] == chosen;
      assert chain[k] == chosen;
      EligibleIsNotStarved(entries, chosen);
      assert StarvingChain(entries, chosen, chain[k..]);
    }
  }

  /** The pending active PRDs that nothing starves. */
  ghost function FreeIds(entries: seq<BacklogEntry>): set<PrdId> {
    set entry | entry in entries && IsFree(entries, entry) :: entry.prd.id
  }

  lemma CompletingFreesTheRest(entries: seq<BacklogEntry>, chosen: BacklogEntry)
    requires Snapshot(entries) && chosen in entries && Eligible(Statuses(entries), chosen)
    ensures chosen.prd.id in FreeIds(entries)
    ensures FreeIds(Complete(entries, chosen.prd.id)) == FreeIds(entries) - {chosen.prd.id}
  {
    var after := Complete(entries, chosen.prd.id);
    EligibleIsReady(Statuses(entries), chosen);
    EligibleIsNotStarved(entries, chosen);
    forall id | id in FreeIds(entries) - {chosen.prd.id} ensures id in FreeIds(after) {
      var entry :| entry in entries && IsFree(entries, entry) && entry.prd.id == id;
      CompletingKeepsStarvation(entries, chosen, entry);
      var i :| 0 <= i < |entries| && entries[i] == entry;
      assert after[i] == entry && IsFree(after, entry);
    }
    forall id | id in FreeIds(after) ensures id in FreeIds(entries) - {chosen.prd.id} {
      var entry :| entry in after && IsFree(after, entry) && entry.prd.id == id;
      CompletingKeepsStarvation(entries, chosen, entry);
      var i :| 0 <= i < |after| && after[i] == entry;
      assert entries[i] == entry && IsFree(entries, entry);
    }
  }

  /** Each PRD of an order is run after everything it depends on. */
  ghost predicate DependencyOrder(g: Graph, statuses: map<PrdId, Status>, order: seq<PrdId>) {
    forall k, dep :: 0 <= k < |order| && Edge(g, order[k], dep) ==> IsCompleted(statuses, dep) || dep in order[..k]
  }

  lemma PrependKeepsOrder(
    g: Graph, before: map<PrdId, Status>, after: map<PrdId, Status>, first: PrdId, rest: seq<PrdId>)
    requires DependencyOrder(g, after, rest)
    requires forall id :: IsCompleted(after, id) <==> IsCompleted(before, id) || id == first
    requires forall dep :: Edge(g, first, dep) ==> IsCompleted(before, dep)
    ensures DependencyOrder(g, before, [first] + rest)
  {
    var order := [first] + rest;
    forall k, dep | 0 <= k < |order| && Edge(g, order[k], dep) ensures IsCompleted(before, dep) || dep in order[..k] {
      if k > 0 {
        assert order[..k] == [first] + rest[..k - 1];
        assert Edge(g, rest[k - 1], dep);
      }
    }
  }

  /** The order runs exactly these PRDs, each once and after its dependencies. */
  ghost predicate RunsExactly(
    prds: seq<DiscoveredPrd>, entries: seq<BacklogEntry>, ids: set<PrdId>, order: seq<PrdId>)
  {
    && |order| == |ids| && (forall id :: id in order <==> id in ids)
    && DependencyOrder(GraphOf(prds), Statuses(entries), order)
  }

  lemma RunningOneMore(prds: seq<DiscoveredPrd>, entries: seq<BacklogEntry>, chosen: BacklogEntry, rest: seq<PrdId>)
    requires Snapshot(entries) && chosen in entries && Eligible(Statuses(entries), chosen)
             && GraphEdges(prds, chosen.prd)
    requires var after := Complete(entries, chosen.prd.id); RunsExactly(prds, after, FreeIds(after), rest)
    ensures RunsExactly(prds, entries, FreeIds(entries), [chosen.prd.id] + rest)
  {
    var after := Complete(entries, chosen.prd.id);
    EligibleIsReady(Statuses(entries), chosen);
    CompletingFreesTheRest(entries, chosen);
    forall id ensures IsCompleted(Statuses(after), id) <==> IsCompleted(Statuses(entries), id) || id == chosen.prd.id {
      CompletingMarksOne(entries, chosen, id);
    }
    PrependKeepsOrder(GraphOf(prds), Statuses(entries), Statuses(after), chosen.prd.id, rest);
  }

  /** Draining an accepted backlog runs exactly the pending active PRDs that nothing starves. */
  lemma {:induction false} DrainRunsExactlyTheFree(prds: seq<DiscoveredPrd>, entries: seq<BacklogEntry>)
    requires OfAccepted(prds, entries)
    ensures RunsExactly(prds, entries, FreeIds(entries), DrainOrder(entries))
    decreases |PendingIds(entries)|
  {
    if Selected(entries).None? {
      NothingIsSelectedExactly(prds, entries);
      assert FreeIds(entries) == {};
    } else {
      var chosen := Selected(entries).value;
      ChosenIsPending(entries);
      ChosenIsEligible(entries);
      CompletingStaysAccepted(prds, entries, chosen.prd.id);
      DrainRunsExactlyTheFree(prds, Complete(entries, chosen.prd.id));
      RunningOneMore(prds, entries, chosen, DrainOrder(Complete(entries, chosen.prd.id)));
    }
  }

  // ------------------------------------------------------------------
  // Without obstacles
  // ------------------------------------------------------------------

  /** Nothing is held, in progress or blocked, and what is archived is completed. */
  ghost predicate Drainable(prds: seq<DiscoveredPrd>, entries: seq<BacklogEntry>) {
    OfAccepted(prds, entries) && forall entry | entry in entries :: !Obstacle(entry)
  }

  lemma NothingStarves(prds: seq<DiscoveredPrd>, entries: seq<BacklogEntry>)
    requires Drainable(prds, entries)
    ensures forall entry :: !Starved(entries, entry)
    ensures FreeIds(entries) == PendingIds(entries)
  {
    assert forall entry: BacklogEntry, chain: seq<BacklogEntry> :: !StarvingChain(entries, entry, chain);
    assert forall entry | entry in entries :: IsFree(entries, entry) <==> entry.status == Pending;
  }

  /** Selection fails only when nothing is pending. */
  lemma SelectionFailsOnlyWhenDone(prds: seq<DiscoveredPrd>, entries: seq<BacklogEntry>)
    requires Drainable(prds, entries)
    ensures Selected(entries).None? <==> forall entry | entry in entries :: entry.status == Completed
  {
    NothingIsSelectedExactly(prds, entries);
    NothingStarves(prds, entries);
  }

  /** Draining a drainable backlog runs everything, in exactly as many steps as there
      are pending PRDs. */
  lemma DrainRunsEverything(prds: seq<DiscoveredPrd>, entries: seq<BacklogEntry>)
    requires Drainable(prds, entries)
    ensures RunsExactly(prds, entries, PendingIds(entries), DrainOrder(entries))
  {
    DrainRunsExactlyTheFree(prds, entries);
    NothingStarves(prds, entries);
  }

  /** A held dependency starves what depends on it: the hypotheses are not idle. */
  lemma HoldsStarve()
    ensures var held := DiscoveredPrd(PrdId(1, None), "a", Active, [], Some("draft"));
            var waiting := DiscoveredPrd(PrdId(2, None), "b", Active, [PrdId(1, None)], None);
            var entries := [BacklogEntry(held, Pending), BacklogEntry(waiting, Pending)];
            Snapshot(entries) && Selected(entries).None?
  {
    var held := DiscoveredPrd(PrdId(1, None), "a", Active, [], Some("draft"));
    var waiting := DiscoveredPrd(PrdId(2, None), "b", Active, [PrdId(1, None)], None);
    var entries := [BacklogEntry(held, Pending), BacklogEntry(waiting, Pending)];
    assert Snapshot(entries);
    HeldIsRefused(entries, entries[0]);
    WaitingIsRefused(entries, entries[0], entries[1]);
    SelectorAgreesWithAdmission(entries);
    assert forall entry :: entry in entries ==> entry == entries[0] || entry == entries[1];
  }

  lemma HeldIsRefused(entries: seq<BacklogEntry>, held: BacklogEntry)
    requires Snapshot(entries) && held in entries && FrontMatterHold(held.prd).Some?
    ensures Admit(entries, held.prd).Failure?
  {
    AdmittedIsEligible(entries, held);
  }

  /** Depending on an entry that is not completed is enough to be refused. */
  lemma WaitingIsRefused(entries: seq<BacklogEntry>, other: BacklogEntry, waiting: BacklogEntry)
    requires Snapshot(entries) && other in entries && waiting in entries
    requires other.status != Completed && other.prd.id in waiting.prd.dependencies
    ensures Admit(entries, waiting.prd).Failure?
  {
    StatusOfEntry(entries, other);
    AdmittedIsEligible(entries, waiting);
    assert other.prd.id in Incomplete(Statuses(entries), waiting.prd.dependencies);
  }
}
