/** What the greedy pass achieves: the lexicographically greatest selection that fits,
    reported document by document, independent of input order, and stable. */
module BudgetOptimality {
  import opened Wrappers
  import opened StringOrder
  import opened ContextBudget

  // ------------------------------------------------------------------
  // Selections
  // ------------------------------------------------------------------

  /** The tokens a selection of the ranked documents costs. */
  function Cost(ranked: seq<ContextDocument>, selection: seq<bool>): nat
    requires |selection| == |ranked|
  {
    if ranked == [] then 0
    else (if selection[0] then ranked[0].estimatedTokens else 0) + Cost(ranked[1..], selection[1..])
  }

  /** At the first place two selections differ, this one includes. */
  predicate AtLeast(a: seq<bool>, b: seq<bool>)
    requires |a| == |b|
  {
    a == [] || (a[0] && !b[0]) || (a[0] == b[0] && AtLeast(a[1..], b[1..]))
  }

  predicate IncludesAt(decisions: seq<Decision>, i: nat)
    requires i < |decisions|
  {
    !decisions[i].outcome.ExcludedExceeds?
  }

  /** What the pass decided about each ranked document, after the decisions before it. */
  function Selection(ceiling: u64, p: Pass, ranked: seq<ContextDocument>): (selection: seq<bool>)
    requires p.used <= ceiling
    ensures |selection| == |ranked|
    decreases |ranked|
  {
    if ranked == [] then []
    else
      [ranked[0].estimatedTokens <= ceiling - p.used]
      + Selection(ceiling, Considered(ceiling, p, ranked[0]), ranked[1..])
  }

  /** The pass uses exactly what its selection costs. */
  lemma {:induction false} PassCosts(ceiling: u64, p: Pass, ranked: seq<ContextDocument>)
    requires p.used <= ceiling
    ensures ConsideredAll(ceiling, p, ranked).used == p.used + Cost(ranked, Selection(ceiling, p, ranked))
    decreases |ranked|
  {
    if ranked != [] {
      PassCosts(ceiling, Considered(ceiling, p, ranked[0]), ranked[1..]);
      assert Selection(ceiling, p, ranked)[1..] == Selection(ceiling, Considered(ceiling, p, ranked[0]), ranked[1..]);
    }
  }

  /** No selection that fits comes before the one the pass makes. */
  lemma {:induction false} SelectionIsGreatest(ceiling: u64, p: Pass, ranked: seq<ContextDocument>, other: seq<bool>)
    requires p.used <= ceiling && |other| == |ranked| && p.used + Cost(ranked, other) <= ceiling
    ensures AtLeast(Selection(ceiling, p, ranked), other)
    decreases |ranked|
  {
    if ranked != [] {
      var mine := Selection(ceiling, p, ranked);
      var next := Considered(ceiling, p, ranked[0]);
      assert mine[1..] == Selection(ceiling, next, ranked[1..]);
      if mine[0] == other[0] {
        SelectionIsGreatest(ceiling, next, ranked[1..], other[1..]);
      }
    }
  }

  /** Nothing excluded would fit in what is left over at the end. */
  lemma {:induction false} ExcludedDoNotFit(ceiling: u64, p: Pass, ranked: seq<ContextDocument>, i: nat)
    requires p.used <= ceiling && i < |ranked| && !Selection(ceiling, p, ranked)[i]
    ensures ranked[i].estimatedTokens > ceiling - ConsideredAll(ceiling, p, ranked).used
    decreases |ranked|
  {
    var next := Considered(ceiling, p, ranked[0]);
    if i == 0 {
      UsedGrows(ceiling, next, ranked[1..]);
    } else {
      ExcludedDoNotFit(ceiling, next, ranked[1..], i - 1);
    }
  }

  lemma UsedGrows(ceiling: u64, p: Pass, ranked: seq<ContextDocument>)
    requires p.used <= ceiling
    ensures ConsideredAll(ceiling, p, ranked).used >= p.used
  {
    PassCosts(ceiling, p, ranked);
  }

  // ------------------------------------------------------------------
  // The report
  // ------------------------------------------------------------------

  /** Each ranked document has its own decision, in rank order, saying what was selected. */
  ghost predicate Reports(decisions: seq<Decision>, from: nat, ranked: seq<ContextDocument>, selection: seq<bool>)
    requires |selection| == |ranked|
  {
    && |decisions| == from + |ranked|
    && forall i :: 0 <= i < |ranked| ==>
         && decisions[from + i].path == ranked[i].path && decisions[from + i].kind == ranked[i].kind
         && decisions[from + i].estimatedTokens == ranked[i].estimatedTokens && decisions[from + i].index == from + i
         && IncludesAt(decisions, from + i) == selection[i]
  }

  lemma {:induction false} PassReports(ceiling: u64, p: Pass, ranked: seq<ContextDocument>)
    requires p.used <= ceiling
    ensures var end := ConsideredAll(ceiling, p, ranked);
            && p.decisions <= end.decisions
            && Reports(end.decisions, |p.decisions|, ranked, Selection(ceiling, p, ranked))
    decreases |ranked|
  {
    if ranked != [] {
      var next := Considered(ceiling, p, ranked[0]);
      PassReports(ceiling, next, ranked[1..]);
      var end, selection := ConsideredAll(ceiling, p, ranked), Selection(ceiling, p, ranked);
      assert end.decisions[|p.decisions|] == next.decisions[|p.decisions|];
      forall i | 1 <= i < |ranked|
        ensures end.decisions[|p.decisions| + i].path == ranked[i].path
                && end.decisions[|p.decisions| + i].kind == ranked[i].kind
        ensures end.decisions[|p.decisions| + i].estimatedTokens == ranked[i].estimatedTokens
        ensures end.decisions[|p.decisions| + i].index == |p.decisions| + i
        ensures IncludesAt(end.decisions, |p.decisions| + i) == selection[i]
      {
        assert |next.decisions| + (i - 1) == |p.decisions| + i && ranked[1..][i - 1] == ranked[i];
      }
    }
  }

  predicate ChosenAt(ranked: seq<ContextDocument>, selection: seq<bool>, path: string)
    requires |selection| == |ranked|
  {
    exists i :: 0 <= i < |ranked| && ranked[i].path == path && selection[i]
  }

  lemma ChosenFront(ranked: seq<ContextDocument>, selection: seq<bool>, path: string)
    requires |selection| == |ranked| && ranked != []
    ensures ChosenAt(ranked, selection, path)
            <==> (ranked[0].path == path && selection[0]) || ChosenAt(ranked[1..], selection[1..], path)
  {
    if ChosenAt(ranked[1..], selection[1..], path) {
      var i :| 0 <= i < |ranked[1..]| && ranked[1..][i].path == path && selection[1..][i];
      assert ranked[i + 1].path == path && selection[i + 1];
    }
    if i :| 0 < i < |ranked| && ranked[i].path == path && selection[i] {
      assert ranked[1..][i - 1].path == path && selection[1..][i - 1];
    }
  }

  /** A path is selected exactly when the document at its rank was. */
  lemma {:induction false} SelectedPaths(ceiling: u64, p: Pass, ranked: seq<ContextDocument>)
    requires p.used <= ceiling
    ensures forall path :: path in ConsideredAll(ceiling, p, ranked).selected <==>
              path in p.selected || ChosenAt(ranked, Selection(ceiling, p, ranked), path)
    decreases |ranked|
  {
    if ranked != [] {
      var next, selection := Considered(ceiling, p, ranked[0]), Selection(ceiling, p, ranked);
      SelectedPaths(ceiling, next, ranked[1..]);
      assert selection[1..] == Selection(ceiling, next, ranked[1..]);
      forall path ensures ChosenAt(ranked, selection, path)
                          <==> (ranked[0].path == path && selection[0]) || ChosenAt(ranked[1..], selection[1..], path)
      {
        ChosenFront(ranked, selection, path);
      }
    }
  }

  // ------------------------------------------------------------------
  // The main properties of a budgeted context
  // ------------------------------------------------------------------

  /** What a decision says of the tokens left: the ceiling less what was spent before it. */
  predicate LeavesAsDue(outcome: Outcome, tokens: nat, left: int) {
    match outcome
    case IncludedMandatory => false
    case IncludedFits(before, after) => before == left && after == left - tokens
    case ExcludedExceeds(required, remaining) => required == tokens && remaining == left && tokens > left
  }

  lemma {:induction false} AmountsAreDue(ceiling: u64, p: Pass, ranked: seq<ContextDocument>, i: nat)
    requires p.used <= ceiling && i < |ranked|
    ensures var end, selection := ConsideredAll(ceiling, p, ranked), Selection(ceiling, p, ranked);
            && |p.decisions| + i < |end.decisions|
            && LeavesAsDue(end.decisions[|p.decisions| + i].outcome, ranked[i].estimatedTokens,
                           ceiling - p.used - Cost(ranked[..i], selection[..i]))
    decreases |ranked|
  {
    var next, selection := Considered(ceiling, p, ranked[0]), Selection(ceiling, p, ranked);
    PassReports(ceiling, p, ranked);
    PassReports(ceiling, next, ranked[1..]);
    if i > 0 {
      AmountsAreDue(ceiling, next, ranked[1..], i - 1);
      assert ranked[..i][1..] == ranked[1..][..i - 1] && selection[..i][1..] == selection[1..][..i - 1];
    } else {
      assert next.decisions <= ConsideredAll(ceiling, p, ranked).decisions;
      assert next.decisions[|p.decisions|] == ConsideredAll(ceiling, p, ranked).decisions[|p.decisions|];
    }
  }

  /** Every decision tells the tokens that were left for its document: the ceiling less the PRD
      and the documents kept ahead of it. */
  lemma DecisionsTellWhatIsLeft(context: ExecutionContext, ceiling: u64, i: nat)
    requires Valid(context) && Budget(context, ceiling).Success? && i < |Ranked(context.documents)|
    ensures var b, ranked := Budget(context, ceiling).value, Ranked(context.documents);
            var selection := Selection(ceiling, Start(context.prd), ranked);
            && 1 + i < |b.decisions|
            && LeavesAsDue(b.decisions[1 + i].outcome, ranked[i].estimatedTokens,
                           ceiling - context.prd.estimatedTokens - Cost(ranked[..i], selection[..i]))
  {
    AmountsAreDue(ceiling, Start(context.prd), Ranked(context.documents), i);
  }

  /** The report conserves tokens, respects the ceiling, and covers each document once. */
  lemma BudgetConserves(context: ExecutionContext, ceiling: u64)
    requires Valid(context) && Budget(context, ceiling).Success?
    ensures var b, ranked := Budget(context, ceiling).value, Ranked(context.documents);
            && b.included + b.excluded == context.estimatedTokens == b.input
            && b.included == b.context.estimatedTokens <= ceiling
            && b.ceiling == ceiling && b.context.prd == context.prd && b.decisions != []
            && b.decisions[0] == Decision(context.prd.path, Prd, context.prd.estimatedTokens, 0, IncludedMandatory)
            && Reports(b.decisions, 1, ranked, Selection(ceiling, Start(context.prd), ranked))
            && multiset(ranked) == multiset(context.documents)
  {
    RankedTotal(context.documents);
    PassReports(ceiling, Start(context.prd), Ranked(context.documents));
  }

  /** A ranked document is kept exactly when its place in the selection says so. */
  lemma KeptIsTheSelection(context: ExecutionContext, ceiling: u64, i: nat)
    requires Valid(context) && Budget(context, ceiling).Success? && i < |Ranked(context.documents)|
    ensures var b, ranked := Budget(context, ceiling).value, Ranked(context.documents);
            ranked[i] in b.context.documents <==> Selection(ceiling, Start(context.prd), ranked)[i]
  {
    var ranked, selected := Ranked(context.documents),
        ConsideredAll(ceiling, Start(context.prd), Ranked(context.documents)).selected;
    SelectedByRank(context, ceiling, i);
    KeptProperties(context.documents, selected);
    assert ranked[i] in multiset(ranked);
  }

  /** What is kept is the lexicographically greatest selection that fits next to the PRD,
      and no document left out fits in the final leftover. */
  lemma BudgetIsGreatest(context: ExecutionContext, ceiling: u64, other: seq<bool>)
    requires Valid(context) && Budget(context, ceiling).Success?
    ensures var b, ranked := Budget(context, ceiling).value, Ranked(context.documents);
            var selection := Selection(ceiling, Start(context.prd), ranked);
            && (forall i :: 0 <= i < |ranked| ==> (ranked[i] in b.context.documents <==> selection[i]))
            && b.included == context.prd.estimatedTokens + Cost(ranked, selection) <= ceiling
            && (|other| == |ranked| && context.prd.estimatedTokens + Cost(ranked, other) <= ceiling
               ==> AtLeast(selection, other))
            && (forall i :: 0 <= i < |ranked| && !selection[i] ==> ranked[i].estimatedTokens > ceiling - b.included)
  {
    var start, ranked := Start(context.prd), Ranked(context.documents);
    PassCosts(ceiling, start, ranked);
    BudgetConserves(context, ceiling);
    forall i | 0 <= i < |ranked|
      ensures ranked[i] in Budget(context, ceiling).value.context.documents <==> Selection(ceiling, start, ranked)[i]
    {
      KeptIsTheSelection(context, ceiling, i);
    }
    if |other| == |ranked| && context.prd.estimatedTokens + Cost(ranked, other) <= ceiling {
      SelectionIsGreatest(ceiling, start, ranked, other);
    }
    forall i | 0 <= i < |ranked| && !Selection(ceiling, start, ranked)[i]
      ensures ranked[i].estimatedTokens > ceiling - Budget(context, ceiling).value.included
    {
      ExcludedDoNotFit(ceiling, start, ranked, i);
    }
  }

  // ------------------------------------------------------------------
  // Order of the input
  // ------------------------------------------------------------------

  ghost predicate StrictlyRanked(documents: seq<ContextDocument>) {
    forall i, j :: 0 <= i < j < |documents| ==> Before(documents[i], documents[j])
  }

  lemma BeforeIsStrictOrder(a: ContextDocument, b: ContextDocument, c: ContextDocument)
    ensures !Before(a, a)
    ensures Before(a, b) && Before(b, c) ==> Before(a, c)
    ensures a.path != b.path ==> Before(a, b) || Before(b, a)
  {
    LessIsIrreflexive(a.path);
    LessIsTotal(a.path, b.path);
    if Less(a.path, b.path) && Less(b.path, c.path) {
      LessIsTransitive(a.path, b.path, c.path);
    }
  }

  lemma {:induction false} InsertedIsRanked(document: ContextDocument, ranked: seq<ContextDocument>)
    requires StrictlyRanked(ranked) && forall other | other in ranked :: other.path != document.path
    ensures StrictlyRanked(Inserted(document, ranked))
  {
    if ranked != [] {
      if Before(document, ranked[0]) {
        forall i | 0 <= i < |ranked| ensures Before(document, ranked[i]) {
          BeforeIsStrictOrder(document, ranked[0], ranked[i]);
        }
      } else {
        InsertedIsRanked(document, ranked[1..]);
        BeforeIsStrictOrder(ranked[0], document, document);
        assert ranked[0].path != document.path;
        var rest := Inserted(document, ranked[1..]);
        forall i | 0 <= i < |rest| ensures Before(ranked[0], rest[i]) {
          BeforeIsStrictOrder(document, ranked[0], document);
          assert rest[i] in multiset(rest);
          assert rest[i] in ranked[1..] || rest[i] == document;
        }
      }
    }
  }

  lemma {:induction false} RankedIsRanked(documents: seq<ContextDocument>)
    requires DistinctPaths(documents)
    ensures StrictlyRanked(Ranked(documents))
  {
    if documents != [] {
      DistinctFront(documents);
      RankedIsRanked(documents[1..]);
      forall other | other in Ranked(documents[1..]) ensures other.path != documents[0].path {
        assert other in multiset(Ranked(documents[1..]));
        assert other in documents[1..];
      }
      InsertedIsRanked(documents[0], Ranked(documents[1..]));
    }
  }

  /** Documents are considered contracts first, then ADRs, then supporting ones, and within a
      kind by path. */
  lemma KindsInOrder(context: ExecutionContext, i: nat, j: nat)
    requires Valid(context) && i < j < |Ranked(context.documents)|
    ensures var a, b := Ranked(context.documents)[i], Ranked(context.documents)[j];
            && (b.kind == Contract ==> a.kind == Contract)
            && (b.kind == Adr ==> a.kind == Contract || a.kind == Adr)
            && a.kind != Prd && b.kind != Prd
            && (a.kind == b.kind ==> Less(a.path, b.path))
  {
    var ranked := Ranked(context.documents);
    RankedIsRanked(context.documents);
    assert ranked[i] in multiset(ranked) && ranked[j] in multiset(ranked);
    assert ranked[i] in context.documents && ranked[j] in context.documents;
    assert Before(ranked[i], ranked[j]);
  }

  lemma SameFirst(a: seq<ContextDocument>, b: seq<ContextDocument>)
    requires StrictlyRanked(a) && StrictlyRanked(b) && a != [] && b != []
    requires a[0] in b && b[0] in a
    ensures a[0] == b[0]
  {
    BeforeIsStrictOrder(a[0], b[0], a[0]);
  }

  lemma TailMultiset(a: seq<ContextDocument>)
    requires a != []
    ensures multiset(a[1..]) == multiset(a) - multiset{a[0]} && a == [a[0]] + a[1..]
  {
    assert a == [a[0]] + a[1..];
  }

  /** Two strictly ranked lists of the same documents are the same list. */
  lemma {:induction false} RankingIsUnique(a: seq<ContextDocument>, b: seq<ContextDocument>)
    requires StrictlyRanked(a) && StrictlyRanked(b) && multiset(a) == multiset(b)
    ensures a == b
  {
    assert |a| == |multiset(a)| == |multiset(b)| == |b|;
    if a != [] {
      assert a[0] in multiset(b) && b[0] in multiset(a);
      SameFirst(a, b);
      TailMultiset(a);
      TailMultiset(b);
      RankingIsUnique(a[1..], b[1..]);
    }
  }

  /** Reordering the documents changes neither the report nor what is selected; the
      kept documents only follow the new order. */
  lemma OrderDoesNotMatter(context: ExecutionContext, reordered: seq<ContextDocument>, ceiling: u64)
    requires Valid(context) && multiset(reordered) == multiset(context.documents)
    ensures var other := context.(documents := reordered);
            && Valid(other)
            && Budget(other, ceiling).Success? == Budget(context, ceiling).Success?
            && (Budget(context, ceiling).Success? ==>
                  var a, b := Budget(context, ceiling).value, Budget(other, ceiling).value;
                  b == a.(context := a.context.(documents := b.context.documents))
                  && b.context.documents
                     == Kept(reordered, ConsideredAll(ceiling, Start(context.prd), Ranked(context.documents)).selected))
  {
    ReorderedIsValid(context, reordered);
    RankedIsRanked(context.documents);
    RankedIsRanked(reordered);
    RankingIsUnique(Ranked(context.documents), Ranked(reordered));
  }

  lemma ReorderedIsValid(context: ExecutionContext, reordered: seq<ContextDocument>)
    requires Valid(context) && multiset(reordered) == multiset(context.documents)
    ensures Valid(context.(documents := reordered))
  {
    var documents := context.documents;
    forall document ensures document in reordered <==> document in documents {
      assert document in multiset(reordered) <==> document in multiset(documents);
    }
    forall i, j | 0 <= i < j < |reordered| ensures reordered[i].path != reordered[j].path {
      if reordered[i].path == reordered[j].path {
        OnePathOneDocument(documents, reordered[i], reordered[j]);
        TwicePresent(reordered, i, j);
        OncePresent(documents, reordered[i]);
        assert false;
      }
    }
    RankedIsRanked(documents);
    RankedIsRanked(reordered);
    RankingIsUnique(Ranked(documents), Ranked(reordered));
    RankedTotal(documents);
    RankedTotal(reordered);
  }

  lemma OnePathOneDocument(documents: seq<ContextDocument>, a: ContextDocument, b: ContextDocument)
    requires DistinctPaths(documents) && a in documents && b in documents && a.path == b.path
    ensures a == b
  {
    var i :| 0 <= i < |documents| && documents[i] == a;
    var j :| 0 <= j < |documents| && documents[j] == b;
    assert i == j;
  }

  lemma TwicePresent(documents: seq<ContextDocument>, i: nat, j: nat)
    requires i < j < |documents| && documents[i] == documents[j]
    ensures multiset(documents)[documents[i]] >= 2
  {
    var front, back := documents[..j], documents[j..];
    assert documents == front + back;
    assert front[i] in multiset(front) && back[0] in multiset(back);
  }

  lemma {:induction false} OncePresent(documents: seq<ContextDocument>, document: ContextDocument)
    requires DistinctPaths(documents)
    ensures multiset(documents)[document] <= 1
  {
    if documents != [] {
      DistinctFront(documents);
      OncePresent(documents[1..], document);
      assert documents == [documents[0]] + documents[1..];
      if document == documents[0] { assert document !in multiset(documents[1..]); }
    }
  }

  // ------------------------------------------------------------------
  // Budgeting again
  // ------------------------------------------------------------------

  lemma {:induction false} KeptProperties(documents: seq<ContextDocument>, selected: set<string>)
    requires DistinctPaths(documents)
    ensures DistinctPaths(Kept(documents, selected))
    ensures forall document ::
              document in Kept(documents, selected) <==> document in documents && document.path in selected
  {
    if documents != [] {
      DistinctFront(documents);
      KeptProperties(documents[1..], selected);
      var kept, rest := Kept(documents, selected), Kept(documents[1..], selected);
      assert forall document :: document in documents <==> document == documents[0] || document in documents[1..];
      if documents[0].path in selected {
        assert kept[1..] == rest;
        DistinctFront(kept);
      }
    }
  }

  /** The tokens of the documents with a selected path. */
  function SelectedTotal(documents: seq<ContextDocument>, selected: set<string>): nat {
    if documents == [] then 0
    else
      (if documents[0].path in selected then documents[0].estimatedTokens else 0)
      + SelectedTotal(documents[1..], selected)
  }

  lemma {:induction false} KeptTotal(documents: seq<ContextDocument>, selected: set<string>)
    ensures Total(Kept(documents, selected)) == SelectedTotal(documents, selected)
  {
    if documents != [] {
      KeptTotal(documents[1..], selected);
      assert [] + Kept(documents[1..], selected) == Kept(documents[1..], selected);
      assert ([documents[0]] + Kept(documents[1..], selected))[1..] == Kept(documents[1..], selected);
    }
  }

  lemma {:induction false} SelectedTotalInserted(
    document: ContextDocument, ranked: seq<ContextDocument>, selected: set<string>)
    ensures SelectedTotal(Inserted(document, ranked), selected)
            == (if document.path in selected then document.estimatedTokens else 0) + SelectedTotal(ranked, selected)
  {
    if ranked == [] || Before(document, ranked[0]) {
      assert ([document] + ranked)[1..] == ranked;
    } else {
      SelectedTotalInserted(document, ranked[1..], selected);
      assert Inserted(document, ranked)[1..] == Inserted(document, ranked[1..]);
    }
  }

  lemma {:induction false} SelectedTotalRanked(documents: seq<ContextDocument>, selected: set<string>)
    ensures SelectedTotal(documents, selected) == SelectedTotal(Ranked(documents), selected)
  {
    if documents != [] {
      SelectedTotalRanked(documents[1..], selected);
      SelectedTotalInserted(documents[0], Ranked(documents[1..]), selected);
    }
  }

  lemma {:induction false} CostIsSelectedTotal(
    ranked: seq<ContextDocument>, selection: seq<bool>, selected: set<string>)
    requires |selection| == |ranked| && forall i :: 0 <= i < |ranked| ==> (ranked[i].path in selected <==> selection[i])
    ensures Cost(ranked, selection) == SelectedTotal(ranked, selected)
  {
    if ranked != [] {
      CostIsSelectedTotal(ranked[1..], selection[1..], selected);
    }
  }

  /** What fits altogether is selected altogether. */
  lemma {:induction false} EverythingFits(ceiling: u64, p: Pass, ranked: seq<ContextDocument>)
    requires p.used + Total(ranked) <= ceiling
    ensures forall i :: 0 <= i < |ranked| ==> Selection(ceiling, p, ranked)[i]
    decreases |ranked|
  {
    if ranked != [] {
      EverythingFits(ceiling, Considered(ceiling, p, ranked[0]), ranked[1..]);
    }
  }

  lemma {:induction false} KeepingAll(documents: seq<ContextDocument>, selected: set<string>)
    requires forall document | document in documents :: document.path in selected
    ensures Kept(documents, selected) == documents
  {
    if documents != [] {
      KeepingAll(documents[1..], selected);
    }
  }

  /** A ranked document's path is selected exactly when its place in the selection says so. */
  lemma SelectedByRank(context: ExecutionContext, ceiling: u64, i: nat)
    requires DistinctPaths(context.documents) && context.prd.estimatedTokens <= ceiling
    requires i < |Ranked(context.documents)|
    ensures var ranked := Ranked(context.documents);
            ranked[i].path in ConsideredAll(ceiling, Start(context.prd), ranked).selected
            <==> Selection(ceiling, Start(context.prd), ranked)[i]
  {
    var start, ranked := Start(context.prd), Ranked(context.documents);
    var selection := Selection(ceiling, start, ranked);
    SelectedPaths(ceiling, start, ranked);
    if ChosenAt(ranked, selection, ranked[i].path) {
      var j :| 0 <= j < |ranked| && ranked[j].path == ranked[i].path && selection[j];
      RankedPathsDistinct(context.documents, i, j);
    }
  }

  lemma IncludedIsKeptTotal(context: ExecutionContext, ceiling: u64)
    requires Valid(context) && Budget(context, ceiling).Success?
    ensures var b := Budget(context, ceiling).value;
            b.included == context.prd.estimatedTokens + Total(b.context.documents)
  {
    var start, ranked := Start(context.prd), Ranked(context.documents);
    var selection, selected := Selection(ceiling, start, ranked), ConsideredAll(ceiling, start, ranked).selected;
    PassCosts(ceiling, start, ranked);
    forall i | 0 <= i < |ranked| ensures ranked[i].path in selected <==> selection[i] {
      SelectedByRank(context, ceiling, i);
    }
    CostIsSelectedTotal(ranked, selection, selected);
    SelectedTotalRanked(context.documents, selected);
    KeptTotal(context.documents, selected);
  }

  lemma RankedPathsDistinct(documents: seq<ContextDocument>, i: nat, j: nat)
    requires DistinctPaths(documents) && i < |Ranked(documents)| && j < |Ranked(documents)|
    requires Ranked(documents)[i].path == Ranked(documents)[j].path
    ensures i == j
  {
    var ranked := Ranked(documents);
    RankedIsRanked(documents);
    assert ranked[i] in multiset(ranked) && ranked[j] in multiset(ranked);
    assert ranked[i] in documents && ranked[j] in documents;
    var a :| 0 <= a < |documents| && documents[a] == ranked[i];
    var b :| 0 <= b < |documents| && documents[b] == ranked[j];
    assert ranked[i] == ranked[j];
    BeforeIsStrictOrder(ranked[i], ranked[j], ranked[i]);
  }

  lemma BudgetedIsValid(context: ExecutionContext, ceiling: u64)
    requires Valid(context) && Budget(context, ceiling).Success?
    ensures Valid(Budget(context, ceiling).value.context)
  {
    KeptProperties(context.documents, ConsideredAll(ceiling, Start(context.prd), Ranked(context.documents)).selected);
    IncludedIsKeptTotal(context, ceiling);
  }

  /** A context that fits altogether keeps every document. */
  lemma FittingKeepsEverything(context: ExecutionContext, ceiling: u64)
    requires Valid(context) && context.estimatedTokens <= ceiling
    ensures Budget(context, ceiling).Success? && Budget(context, ceiling).value.context.documents == context.documents
  {
    var selected := ConsideredAll(ceiling, Start(context.prd), Ranked(context.documents)).selected;
    forall document | document in context.documents ensures document.path in selected {
      FittingIsSelected(context, ceiling, document);
    }
    KeepingAll(context.documents, selected);
  }

  lemma FittingIsSelected(context: ExecutionContext, ceiling: u64, document: ContextDocument)
    requires Valid(context) && context.estimatedTokens <= ceiling && document in context.documents
    ensures document.path in ConsideredAll(ceiling, Start(context.prd), Ranked(context.documents)).selected
  {
    var ranked := Ranked(context.documents);
    RankedTotal(context.documents);
    EverythingFits(ceiling, Start(context.prd), ranked);
    assert document in multiset(ranked);
    var i :| 0 <= i < |ranked| && ranked[i] == document;
    SelectedByRank(context, ceiling, i);
  }

  /** A budgeted context is valid, and budgeting it again at the same ceiling changes nothing. */
  lemma BudgetingAgainChangesNothing(context: ExecutionContext, ceiling: u64)
    requires Valid(context) && Budget(context, ceiling).Success?
    ensures var kept := Budget(context, ceiling).value.context;
            Valid(kept) && Budget(kept, ceiling).Success? && Budget(kept, ceiling).value.context == kept
  {
    var kept := Budget(context, ceiling).value.context;
    BudgetedIsValid(context, ceiling);
    FittingKeepsEverything(kept, ceiling);
    IncludedIsKeptTotal(kept, ceiling);
  }
}
