/** PRD identities, their order, and the validation of the dependency graph
    (crates/familiar-ai-core/src/backlog.rs, lines 10-81, 1042-1059 and 1632-1703). */
module BacklogGraph {
  import opened Wrappers

  /** Two identities are equal when number and suffix are; how they render is no part of them. */
  datatype PrdId = PrdId(number: nat, suffix: Option<char>)

  datatype Ordering = Less | Equal | Greater

  /** By number; then suffixed identities before the bare one, among themselves by suffix. */
  function Compare(a: PrdId, b: PrdId): Ordering {
    if a.number < b.number then Less
    else if a.number > b.number then Greater
    else
      match (a.suffix, b.suffix)
      case (Some(x), Some(y)) => if x < y then Less else if x > y then Greater else Equal
      case (Some(_), None) => Less
      case (None, Some(_)) => Greater
      case (None, None) => Equal
  }

  /** The order as one number, which makes it a total order at sight. */
  function Key(id: PrdId): int {
    id.number * 0x110001 + (if id.suffix.Some? then id.suffix.value as int else 0x110000)
  }

  lemma CompareIsKeyOrder(a: PrdId, b: PrdId)
    ensures Compare(a, b) == Less <==> Key(a) < Key(b)
    ensures Compare(a, b) == Greater <==> Key(a) > Key(b)
    ensures Compare(a, b) == Equal <==> a == b
    ensures Key(a) == Key(b) <==> a == b
  {
    var x := if a.suffix.Some? then a.suffix.value as int else 0x110000;
    var y := if b.suffix.Some? then b.suffix.value as int else 0x110000;
    assert 0 <= x <= 0x110000 && 0 <= y <= 0x110000;
    if a.number < b.number {
      assert Key(a) <= a.number * 0x110001 + 0x110000 < (a.number + 1) * 0x110001 <= b.number * 0x110001;
    } else if b.number < a.number {
      assert Key(b) <= b.number * 0x110001 + 0x110000 < (b.number + 1) * 0x110001 <= a.number * 0x110001;
    }
  }

  /** The number decides; of one number, suffixed identities come by suffix, ahead of the bare one. */
  lemma IdentityOrder(a: PrdId, b: PrdId)
    ensures Compare(a, b) == Less
            <==> a.number < b.number
                 || (a.number == b.number && a.suffix.Some? && (b.suffix.None? || a.suffix.value < b.suffix.value))
    ensures Compare(a, b) == Less <==> Compare(b, a) == Greater
  {
  }

  datatype Location = Active | Archived

  datatype DiscoveredPrd = DiscoveredPrd(
    id: PrdId, path: string, location: Location, dependencies: seq<PrdId>, frontMatterStatus: Option<string>)

  ghost predicate DistinctIds(prds: seq<DiscoveredPrd>) {
    forall i, j :: 0 <= i < j < |prds| ==> prds[i].id != prds[j].id
  }

  /** The check discovery ends with: neighbours of the sorted list are compared. */
  method FindDuplicateIdentity(prds: seq<DiscoveredPrd>) returns (duplicate: Option<PrdId>)
    requires forall i, j :: 0 <= i < j < |prds| ==> Key(prds[i].id) <= Key(prds[j].id)
    ensures duplicate.None? <==> DistinctIds(prds)
    ensures duplicate.Some? ==> exists i :: 0 <= i < |prds| - 1 && prds[i].id == prds[i + 1].id == duplicate.value
  {
    var i := 1;
    while i < |prds|
      invariant i >= 1
      invariant forall k :: 1 <= k < i && k < |prds| ==> Key(prds[k - 1].id) < Key(prds[k].id)
    {
      if prds[i - 1].id == prds[i].id {
        return Some(prds[i].id);
      }
      CompareIsKeyOrder(prds[i - 1].id, prds[i].id);
      i := i + 1;
    }
    forall i, j | 0 <= i < j < |prds| ensures prds[i].id != prds[j].id {
      assert Key(prds[i].id) <= Key(prds[j - 1].id) < Key(prds[j].id);
    }
    return None;
  }

  // ------------------------------------------------------------------
  // Graphs
  // ------------------------------------------------------------------

  type Graph = map<PrdId, seq<PrdId>>

  /** Dependencies by identity; of two entries with one identity the later counts. */
  function GraphOf(prds: seq<DiscoveredPrd>): Graph {
    if prds == [] then map[]
    else GraphOf(prds[..|prds| - 1])[prds[|prds| - 1].id := prds[|prds| - 1].dependencies]
  }

  predicate Edge(g: Graph, a: PrdId, b: PrdId) {
    a in g && b in g[a]
  }

  ghost predicate Closed(g: Graph) {
    forall a, b :: Edge(g, a, b) ==> b in g
  }

  ghost predicate Chain(g: Graph, path: seq<PrdId>) {
    forall i :: 0 <= i < |path| - 1 ==> Edge(g, path[i], path[i + 1])
  }

  ghost predicate Distinct(ids: seq<PrdId>) {
    forall i, j :: 0 <= i < j < |ids| ==> ids[i] != ids[j]
  }

  /** A closed walk along dependencies that repeats nothing but its first member. */
  ghost predicate SimpleCycle(g: Graph, cycle: seq<PrdId>) {
    |cycle| >= 2 && cycle[0] == cycle[|cycle| - 1] && Chain(g, cycle) && Distinct(cycle[..|cycle| - 1])
  }

  /** The cycle as reported: it starts at its least member. */
  ghost predicate CanonicalCycle(g: Graph, cycle: seq<PrdId>) {
    SimpleCycle(g, cycle) && forall id | id in cycle :: Key(cycle[0]) <= Key(id)
  }

  /** Every dependency ranks below what depends on it. */
  ghost predicate Ranked(g: Graph, rank: map<PrdId, nat>) {
    g.Keys <= rank.Keys && forall a, b :: Edge(g, a, b) ==> b in rank && rank[b] < rank[a]
  }

  ghost predicate Acyclic(g: Graph) {
    exists rank :: Ranked(g, rank)
  }

  lemma {:induction false} RankDescends(g: Graph, rank: map<PrdId, nat>, path: seq<PrdId>, i: nat, j: nat)
    requires Ranked(g, rank) && Chain(g, path) && i < j < |path|
    ensures path[i] in rank && path[j] in rank && rank[path[j]] < rank[path[i]]
  {
    assert Edge(g, path[j - 1], path[j]);
    if i < j - 1 {
      RankDescends(g, rank, path, i, j - 1);
    }
  }

  /** A ranked graph has no cycle of dependencies at all. */
  lemma RankedHasNoCycle(g: Graph, cycle: seq<PrdId>)
    requires |cycle| >= 2 && cycle[0] == cycle[|cycle| - 1] && Chain(g, cycle)
    ensures !Acyclic(g)
  {
    if Acyclic(g) {
      var rank :| Ranked(g, rank);
      RankDescends(g, rank, cycle, 0, |cycle| - 1);
    }
  }

  // ------------------------------------------------------------------
  // Rotation to canonical form
  // ------------------------------------------------------------------

  function Rotated(members: seq<PrdId>, start: nat): seq<PrdId>
    requires start < |members|
  {
    var turned := members[start..] + members[..start];
    turned + [turned[0]]
  }

  lemma RotationIsCycle(g: Graph, cycle: seq<PrdId>, start: nat)
    requires SimpleCycle(g, cycle) && start < |cycle| - 1
    ensures SimpleCycle(g, Rotated(cycle[..|cycle| - 1], start))
  {
    var members := cycle[..|cycle| - 1];
    var n, turned, rotated := |members|, members[start..] + members[..start], Rotated(members, start);
    forall i | 0 <= i < n ensures Edge(g, rotated[i], rotated[i + 1]) {
      var k := if i < n - start then start + i else i - (n - start);
      assert rotated[i] == members[k] && Edge(g, cycle[k], cycle[k + 1]);
      assert rotated[i + 1] == if k + 1 < n then members[k + 1] else members[0];
    }
    assert rotated[..n] == turned;
  }

  /** The index of the least member: the first of the smallest, as an iterator finds it. */
  method IndexOfLeast(members: seq<PrdId>) returns (start: nat)
    requires members != []
    ensures start < |members| && forall i :: 0 <= i < |members| ==> Key(members[start]) <= Key(members[i])
  {
    start := 0;
    for i := 1 to |members|
      invariant start < i
      invariant forall k :: 0 <= k < i ==> Key(members[start]) <= Key(members[k])
    {
      CompareIsKeyOrder(members[i], members[start]);
      if Compare(members[i], members[start]) == Less {
        start := i;
      }
    }
  }

  method Canonicalize(g: Graph, cycle: seq<PrdId>) returns (canonical: seq<PrdId>)
    requires SimpleCycle(g, cycle)
    ensures CanonicalCycle(g, canonical)
  {
    var members := cycle[..|cycle| - 1];
    var start := IndexOfLeast(members);
    canonical := Rotated(members, start);
    RotationIsCycle(g, cycle, start);
    forall id | id in canonical ensures Key(canonical[0]) <= Key(id) {
      assert id in members;
    }
  }

  // ------------------------------------------------------------------
  // Depth-first search
  // ------------------------------------------------------------------

  datatype Colour = Visiting | Done

  /** The search: a colour per visited identity and the stack of the visit in progress.
      `finished` lists the identities in the order their visits ended. */
  class GraphSearch {
    const graph: Graph
    var state: map<PrdId, Colour>
    var stack: seq<PrdId>
    ghost var finished: seq<PrdId>

    constructor (g: Graph)
      requires Closed(g)
      ensures graph == g && Valid() && state == map[] && stack == []
    {
      graph, state, stack, finished := g, map[], [], [];
    }

    /** The stack is the path of identities being visited; the finished ones are a
        list in which every dependency comes before what depends on it. */
    ghost predicate Valid()
      reads this
    {
      && Closed(graph) && state.Keys <= graph.Keys
      && Distinct(stack) && Chain(graph, stack)
      && (forall id :: id in stack <==> id in state && state[id] == Visiting)
      && Distinct(finished)
      && (forall id :: id in finished <==> id in state && state[id] == Done)
      && (forall i, dep :: 0 <= i < |finished| && dep in graph[finished[i]] ==> dep in finished[..i])
    }

    /** Nothing visited is forgotten, and what was visited meanwhile is done. */
    twostate predicate Advanced()
      reads this
    {
      && (forall id :: id in old(state) ==> id in state && state[id] == old(state[id]))
      && (forall id :: id in state && id !in old(state) ==> state[id] == Done)
    }

    method Visit(id: PrdId) returns (cycle: Option<seq<PrdId>>)
      requires Valid() && id in graph && id !in state
      requires stack != [] ==> Edge(graph, stack[|stack| - 1], id)
      modifies this
      ensures cycle.Some? ==> SimpleCycle(graph, cycle.value)
      ensures cycle.None? ==> Valid() && stack == old(stack) && id in state && Advanced()
      decreases graph.Keys - state.Keys, 0
    {
      OpenVisit(id);
      assert id in graph.Keys - old(state).Keys && id !in graph.Keys - state.Keys;
      cycle := VisitDependencies(id);
      if cycle.None? {
        CloseVisit(id);
      }
    }

    /** Follows every dependency of the identity just opened, in order. */
    method VisitDependencies(id: PrdId) returns (cycle: Option<seq<PrdId>>)
      requires Valid() && stack != [] && stack[|stack| - 1] == id && id in state
      modifies this
      ensures cycle.Some? ==> SimpleCycle(graph, cycle.value)
      ensures cycle.None? ==> Valid() && stack == old(stack) && Advanced()
      ensures cycle.None? ==> forall dep :: Edge(graph, id, dep) ==> dep in state && state[dep] == Done
      decreases graph.Keys - state.Keys, 2
    {
      var dependencies := graph[id];
      for i := 0 to |dependencies|
        invariant Valid() && stack == old(stack) && Advanced()
        invariant forall k :: 0 <= k < i ==> dependencies[k] in state && state[dependencies[k]] == Done
      {
        assert Edge(graph, id, dependencies[i]);
        cycle := VisitDependency(dependencies[i]);
        if cycle.Some? {
          return;
        }
      }
      assert forall dep :: Edge(graph, id, dep) ==> dep in dependencies;
      cycle := None;
    }

    /** Follows one dependency of the identity being visited. */
    method VisitDependency(dep: PrdId) returns (cycle: Option<seq<PrdId>>)
      requires Valid() && stack != [] && Edge(graph, stack[|stack| - 1], dep)
      modifies this
      ensures cycle.Some? ==> SimpleCycle(graph, cycle.value)
      ensures cycle.None? ==> Valid() && stack == old(stack) && Advanced() && dep in state && state[dep] == Done
      decreases graph.Keys - state.Keys, 1
    {
      cycle := None;
      if dep !in state {
        cycle := Visit(dep);
      } else if state[dep] == Visiting {
        var members := CycleThrough(dep);
        cycle := Some(members);
      }
    }

    /** Begins a visit: the identity joins the stack. */
    method OpenVisit(id: PrdId)
      requires Valid() && id in graph && id !in state
      requires stack != [] ==> Edge(graph, stack[|stack| - 1], id)
      modifies this
      ensures Valid() && stack == old(stack) + [id] && state == old(state)[id := Visiting]
    {
      state := state[id := Visiting];
      stack := stack + [id];
    }

    /** The part of the stack from `dep` on, closed. */
    method CycleThrough(dep: PrdId) returns (cycle: seq<PrdId>)
      requires Valid() && dep in stack && Edge(graph, stack[|stack| - 1], dep)
      ensures SimpleCycle(graph, cycle)
    {
      var position := 0;
      while stack[position] != dep
        invariant position < |stack| && dep in stack[position..]
        decreases |stack| - position
      {
        position := position + 1;
      }
      cycle := stack[position..] + [dep];
      forall i | 0 <= i < |cycle| - 1 ensures Edge(graph, cycle[i], cycle[i + 1]) {
        if i < |cycle| - 2 {
          assert Edge(graph, stack[position + i], stack[position + i + 1]);
        }
      }
      assert cycle[..|cycle| - 1] == stack[position..];
    }

    /** Ends a visit whose dependencies are all done. */
    method CloseVisit(id: PrdId)
      requires Valid() && stack != [] && stack[|stack| - 1] == id
      requires forall dep :: Edge(graph, id, dep) ==> dep in state && state[dep] == Done
      modifies this
      ensures Valid() && stack == old(stack[..|stack| - 1]) && state == old(state)[id := Done]
    {
      assert id in stack;
      stack := stack[..|stack| - 1];
      state := state[id := Done];
      finished := finished + [id];
      forall i, dep | 0 <= i < |finished| && dep in graph[finished[i]] ensures dep in finished[..i] {
        if i < |finished| - 1 {
          assert finished[..i] == old(finished)[..i];
        } else {
          assert Edge(graph, id, dep) && finished[..i] == old(finished);
        }
      }
      assert finished[|finished| - 1] == id;
    }
  }

  /** A finished search ranks every identity by when its visit ended. */
  lemma FinishedOrderRanks(g: Graph, finished: seq<PrdId>)
    requires forall id :: id in finished <==> id in g
    requires Distinct(finished)
    requires forall i, dep :: 0 <= i < |finished| && dep in g[finished[i]] ==> dep in finished[..i]
    ensures Acyclic(g)
  {
    var rank := map id | id in g :: PositionOf(finished, id);
    forall a, b | Edge(g, a, b) ensures b in rank && rank[b] < rank[a] {
      var i := PositionOf(finished, a);
      assert b in finished[..i];
      var j :| 0 <= j < i && finished[j] == b;
      assert PositionOf(finished, b) == j;
    }
    assert Ranked(g, rank);
  }

  ghost function PositionOf(ids: seq<PrdId>, id: PrdId): (i: nat)
    requires id in ids
    ensures i < |ids| && ids[i] == id
  {
    var i :| 0 <= i < |ids| && ids[i] == id;
    i
  }

  // ------------------------------------------------------------------
  // Validation
  // ------------------------------------------------------------------

  datatype Verdict =
    | Accepted
    | SelfDependency(path: string, id: PrdId)
    | MissingDependency(path: string, dependency: PrdId)
    | Cycle(members: seq<PrdId>)

  ghost predicate DependenciesPresent(prds: seq<DiscoveredPrd>) {
    forall prd | prd in prds :: Grounded(prd, GraphOf(prds))
  }

  /** Every dependency of the PRD is another PRD of the graph. */
  ghost predicate Grounded(prd: DiscoveredPrd, graph: Graph) {
    forall dep | dep in prd.dependencies :: dep != prd.id && dep in graph
  }

  lemma {:induction false} GraphOfKnowsIds(prds: seq<DiscoveredPrd>)
    ensures forall id :: id in GraphOf(prds) <==> exists prd :: prd in prds && prd.id == id
    ensures forall id :: id in GraphOf(prds) ==>
              exists prd :: prd in prds && prd.id == id && prd.dependencies == GraphOf(prds)[id]
  {
    if prds != [] {
      var rest, last := prds[..|prds| - 1], prds[|prds| - 1];
      GraphOfKnowsIds(rest);
      assert forall prd :: prd in prds <==> prd in rest || prd == last;
    }
  }

  lemma PresentMeansClosed(prds: seq<DiscoveredPrd>)
    requires DependenciesPresent(prds)
    ensures Closed(GraphOf(prds))
  {
    GraphOfKnowsIds(prds);
  }

  predicate IsLeast(ids: set<PrdId>, least: PrdId) {
    least in ids && forall id | id in ids :: Key(least) <= Key(id)
  }

  lemma LeastIsUnique(ids: set<PrdId>)
    ensures forall a, b :: IsLeast(ids, a) && IsLeast(ids, b) ==> a == b
  {
    forall a, b | IsLeast(ids, a) && IsLeast(ids, b) ensures a == b {
      CompareIsKeyOrder(a, b);
    }
  }

  function Least(ids: set<PrdId>): (least: PrdId)
    requires ids != {}
    ensures IsLeast(ids, least)
  {
    LeastExists(ids);
    LeastIsUnique(ids);
    var least :| IsLeast(ids, least);
    least
  }

  /** The identities of a graph in order. */
  function SortedIds(ids: set<PrdId>): (sorted: seq<PrdId>)
    ensures forall id :: id in sorted <==> id in ids
    decreases |ids|
  {
    if ids == {} then [] else [Least(ids)] + SortedIds(ids - {Least(ids)})
  }

  lemma {:induction false} LeastExists(ids: set<PrdId>)
    requires ids != {}
    ensures exists least :: IsLeast(ids, least)
    decreases |ids|
  {
    var some :| some in ids;
    var others := ids - {some};
    if others == {} {
      assert ids == {some};
      assert IsLeast(ids, some);
    } else {
      LeastExists(others);
      var least :| IsLeast(others, least);
      assert IsLeast(ids, if Key(some) < Key(least) then some else least);
    }
  }

  /** Refuses a dependency that is the PRD itself or names no PRD. */
  method CheckDependencies(prds: seq<DiscoveredPrd>, graph: Graph) returns (verdict: Verdict)
    requires graph == GraphOf(prds)
    ensures verdict.Accepted? <==> DependenciesPresent(prds)
    ensures !verdict.Cycle?
    ensures verdict.SelfDependency? ==>
              exists prd :: prd in prds && prd.path == verdict.path && prd.id == verdict.id
                && prd.id in prd.dependencies
    ensures verdict.MissingDependency? ==>
              exists prd :: prd in prds && prd.path == verdict.path && verdict.dependency in prd.dependencies
                            && verdict.dependency !in graph
  {
    for i := 0 to |prds|
      invariant forall k :: 0 <= k < i ==> Grounded(prds[k], graph)
    {
      var prd := prds[i];
      for j := 0 to |prd.dependencies|
        invariant forall k :: 0 <= k < j ==> prd.dependencies[k] != prd.id && prd.dependencies[k] in graph
      {
        var dep := prd.dependencies[j];
        assert prd in prds && dep in prd.dependencies;
        if dep == prd.id {
          assert !Grounded(prd, graph);
          return SelfDependency(prd.path, prd.id);
        }
        if dep !in graph {
          assert !Grounded(prd, graph);
          return MissingDependency(prd.path, dep);
        }
      }
    }
    return Accepted;
  }

  /** Accepts exactly the backlogs whose dependencies are all present, none on itself,
      and which can be ranked; otherwise names a genuine offence. */
  method ValidateGraph(prds: seq<DiscoveredPrd>) returns (verdict: Verdict)
    ensures verdict.Accepted? <==> DependenciesPresent(prds) && Acyclic(GraphOf(prds))
    ensures verdict.Cycle? <==> DependenciesPresent(prds) && !Acyclic(GraphOf(prds))
    ensures verdict.Cycle? ==> CanonicalCycle(GraphOf(prds), verdict.members)
    ensures verdict.SelfDependency? ==>
              exists prd :: prd in prds && prd.path == verdict.path && prd.id == verdict.id
                && prd.id in prd.dependencies
    ensures verdict.MissingDependency? ==>
              exists prd :: prd in prds && prd.path == verdict.path && verdict.dependency in prd.dependencies
                            && verdict.dependency !in GraphOf(prds)
  {
    var graph := GraphOf(prds);
    verdict := CheckDependencies(prds, graph);
    if !verdict.Accepted? {
      return;
    }
    PresentMeansClosed(prds);
    var cycle := FindCycle(graph);
    if cycle.Some? {
      var members := Canonicalize(graph, cycle.value);
      RankedHasNoCycle(graph, cycle.value);
      verdict := Cycle(members);
    }
  }

  /** Searches from every identity not yet visited, in order. */
  method FindCycle(graph: Graph) returns (cycle: Option<seq<PrdId>>)
    requires Closed(graph)
    ensures cycle.Some? ==> SimpleCycle(graph, cycle.value)
    ensures cycle.None? ==> Acyclic(graph)
  {
    var search := new GraphSearch(graph);
    var ids := SortedIds(graph.Keys);
    for i := 0 to |ids|
      invariant search.Valid() && search.stack == [] && search.graph == graph
      invariant forall k :: 0 <= k < i ==> ids[k] in search.state
    {
      if ids[i] !in search.state {
        assert ids[i] in ids;
        cycle := search.Visit(ids[i]);
        if cycle.Some? {
          return;
        }
      }
    }
    assert forall id :: id in graph ==> id in ids;
    FinishedSearchRanks(search);
    cycle := None;
  }

  /** A search that has visited everything and is visiting nothing has ranked the graph. */
  lemma FinishedSearchRanks(search: GraphSearch)
    requires search.Valid() && search.stack == [] && forall id :: id in search.graph ==> id in search.state
    ensures Acyclic(search.graph)
  {
    forall id | id in search.graph ensures id in search.finished {
      assert id !in search.stack;
    }
    FinishedOrderRanks(search.graph, search.finished);
  }
}
