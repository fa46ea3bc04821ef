/** The context budgeter: which referenced documents of a PRD fit under a token
    ceiling (crates/familiar-ai-context/src/budget.rs, lines 98-294). */
module ContextBudget {
  import opened Wrappers
  import opened StringOrder

  const U64_MAX: nat := 0xFFFF_FFFF_FFFF_FFFF

  type u64 = n: nat | n <= U64_MAX

  datatype DocumentKind = Prd | Adr | Contract | Supporting

  datatype InclusionReason = RequestedPrd | DirectReference(referencedBy: string)

  datatype ContextDocument = ContextDocument(
    path: string, kind: DocumentKind, content: string, inclusion: InclusionReason, estimatedTokens: u64)

  datatype ExecutionContext = ExecutionContext(
    prd: ContextDocument, documents: seq<ContextDocument>, estimatedTokens: u64)

  datatype Outcome =
    | IncludedMandatory
    | IncludedFits(remainingBefore: u64, remainingAfter: u64)
    | ExcludedExceeds(required: u64, remaining: u64)

  datatype Decision = Decision(path: string, kind: DocumentKind, estimatedTokens: u64, index: nat, outcome: Outcome)

  datatype Budgeted = Budgeted(
    context: ExecutionContext, ceiling: u64, input: u64, included: u64, excluded: u64, decisions: seq<Decision>)

  datatype BudgetError =
    | PrdExceedsHardCeiling(path: string, tokens: u64, ceiling: u64)
    | InvalidPrd(path: string)
    | InvalidDirectDocument(path: string)
    | DuplicatePath(path: string)
    | MalformedPath(path: string)
    | InconsistentDocumentEstimate(path: string, expected: u64, actual: u64)
    | InconsistentAggregateEstimate(expected: u64, actual: u64)
    | TokenArithmeticOverflow

  function CheckedAdd(a: u64, b: u64): Result<u64, BudgetError> {
    if a + b <= U64_MAX then Success(a + b) else Failure(TokenArithmeticOverflow)
  }

  function CheckedSub(a: u64, b: u64): Result<u64, BudgetError> {
    if a >= b then Success(a - b) else Failure(TokenArithmeticOverflow)
  }

  /** One token for every four characters, rounded up. */
  function EstimateTokens(content: string): nat {
    (|content| + 3) / 4
  }

  /** The least number of fours that covers the text. */
  lemma EstimateCovers(content: string)
    ensures 4 * EstimateTokens(content) >= |content|
    ensures forall n: nat :: 4 * n >= |content| ==> n >= EstimateTokens(content)
  {
  }

  // ------------------------------------------------------------------
  // Validation
  // ------------------------------------------------------------------

  /** The parts of a text between separators. */
  function Parts(text: string, separator: char): seq<string> {
    if text == "" then [""]
    else if text[0] == separator then [""] + Parts(text[1..], separator)
    else
      var rest := Parts(text[1..], separator);
      if rest == [] then [text] else [[text[0]] + rest[0]] + rest[1..]
  }

  predicate WellFormedPath(path: string) {
    path != "" && path[0] != '/' && '\\' !in path
    && forall part | part in Parts(path, '/') :: part != "" && part != "." && part != ".."
  }

  function Rejoined(parts: seq<string>, separator: char): string
    requires parts != []
  {
    if |parts| == 1 then parts[0] else parts[0] + [separator] + Rejoined(parts[1..], separator)
  }

  predicate Without(parts: seq<string>, separator: char) {
    forall part | part in parts :: separator !in part
  }

  lemma {:induction false} PartsRejoin(text: string, separator: char)
    ensures var parts := Parts(text, separator);
            parts != [] && Rejoined(parts, separator) == text && Without(parts, separator)
  {
    if text != "" {
      PartsRejoin(text[1..], separator);
      assert text == [text[0]] + text[1..];
      var rest := Parts(text[1..], separator);
      if text[0] == separator {
        assert ([""] + rest)[1..] == rest;
      } else {
        assert ([[text[0]] + rest[0]] + rest[1..])[1..] == rest[1..];
        if |rest| > 1 {
          assert [text[0]] + (rest[0] + [separator] + Rejoined(rest[1..], separator))
              == [text[0]] + rest[0] + [separator] + Rejoined(rest[1..], separator);
        }
      }
    }
  }

  lemma {:induction false} PartsOfPart(part: string, rest: string, separator: char)
    requires separator !in part
    ensures Parts(part, separator) == [part]
    ensures Parts(part + [separator] + rest, separator) == [part] + Parts(rest, separator)
  {
    if part == "" {
      assert part + [separator] + rest == [separator] + rest;
    } else {
      assert part == [part[0]] + part[1..];
      assert (part + [separator] + rest)[1..] == part[1..] + [separator] + rest;
      PartsOfPart(part[1..], rest, separator);
    }
  }

  lemma {:induction false} RejoinedParts(parts: seq<string>, separator: char)
    requires parts != [] && Without(parts, separator)
    ensures Parts(Rejoined(parts, separator), separator) == parts
  {
    assert parts[0] in parts;
    if |parts| == 1 {
      PartsOfPart(parts[0], "", separator);
    } else {
      RejoinedParts(parts[1..], separator);
      PartsOfPart(parts[0], Rejoined(parts[1..], separator), separator);
    }
  }

  /** A step down: no separator of either kind, and neither nothing, here nor up. */
  predicate StepDown(part: string) {
    part != "" && part != "." && part != ".." && '/' !in part && '\\' !in part
  }

  predicate PathOf(path: string, parts: seq<string>) {
    parts != [] && path == Rejoined(parts, '/') && forall part | part in parts :: StepDown(part)
  }

  lemma {:induction false} RejoinedHolds(parts: seq<string>, c: char)
    requires parts != [] && c != '/'
    ensures c in Rejoined(parts, '/') <==> exists part :: part in parts && c in part
  {
    if |parts| > 1 {
      RejoinedHolds(parts[1..], c);
      assert forall part :: part in parts <==> part == parts[0] || part in parts[1..];
    } else {
      assert parts[0] in parts;
    }
  }

  /** A well-formed path is exactly a list of steps down, joined by slashes. */
  lemma WellFormedExactly(path: string)
    ensures WellFormedPath(path) <==> exists parts :: PathOf(path, parts)
  {
    var own := Parts(path, '/');
    PartsRejoin(path, '/');
    RejoinedHolds(own, '\\');
    if WellFormedPath(path) {
      assert PathOf(path, own);
    }
    if parts :| PathOf(path, parts) {
      RejoinedParts(parts, '/');
      assert own == parts && parts[0] in parts;
    }
  }

  function ValidateEstimate(document: ContextDocument): Result<u64, BudgetError> {
    var expected := EstimateTokens(document.content);
    if expected > U64_MAX then Failure(TokenArithmeticOverflow)
    else if expected != document.estimatedTokens then
      Failure(InconsistentDocumentEstimate(document.path, expected, document.estimatedTokens))
    else Success(expected)
  }

  predicate ReferencedBy(document: ContextDocument, prd: string) {
    document.kind != Prd && document.inclusion == DirectReference(prd)
  }

  function ValidateDocument(document: ContextDocument, prd: string, paths: set<string>): Result<u64, BudgetError> {
    if !WellFormedPath(document.path) then Failure(MalformedPath(document.path))
    else if document.path in paths then Failure(DuplicatePath(document.path))
    else if !ReferencedBy(document, prd) then Failure(InvalidDirectDocument(document.path))
    else ValidateEstimate(document)
  }

  function ValidateDocuments(documents: seq<ContextDocument>, prd: string, paths: set<string>, total: u64)
    : Result<u64, BudgetError>
    decreases |documents|
  {
    if documents == [] then Success(total)
    else
      match ValidateDocument(documents[0], prd, paths)
      case Failure(error) => Failure(error)
      case Success(tokens) =>
        match CheckedAdd(total, tokens)
        case Failure(error) => Failure(error)
        case Success(sum) => ValidateDocuments(documents[1..], prd, paths + {documents[0].path}, sum)
  }

  function ValidatePrd(prd: ContextDocument): Result<u64, BudgetError> {
    if !WellFormedPath(prd.path) then Failure(MalformedPath(prd.path))
    else if prd.kind != Prd || prd.inclusion != RequestedPrd then Failure(InvalidPrd(prd.path))
    else ValidateEstimate(prd)
  }

  function Validation(context: ExecutionContext): Result<(), BudgetError> {
    match ValidatePrd(context.prd)
    case Failure(error) => Failure(error)
    case Success(tokens) =>
      match ValidateDocuments(context.documents, context.prd.path, {context.prd.path}, tokens)
      case Failure(error) => Failure(error)
      case Success(total) =>
        if total != context.estimatedTokens then Failure(InconsistentAggregateEstimate(total, context.estimatedTokens))
        else Success(())
  }

  /** Validation as the source runs it. */
  method ValidateContext(context: ExecutionContext) returns (result: Result<(), BudgetError>)
    ensures result == Validation(context)
  {
    var first := ValidatePrd(context.prd);
    if first.Failure? {
      return Failure(first.error);
    }
    var total: u64 := first.value;
    var paths := {context.prd.path};
    for i := 0 to |context.documents|
      invariant ValidateDocuments(context.documents, context.prd.path, {context.prd.path}, first.value)
                == ValidateDocuments(context.documents[i..], context.prd.path, paths, total)
    {
      assert context.documents[i..][1..] == context.documents[i + 1..];
      var document := context.documents[i];
      var tokens := ValidateDocument(document, context.prd.path, paths);
      if tokens.Failure? {
        return Failure(tokens.error);
      }
      paths := paths + {document.path};
      var sum := CheckedAdd(total, tokens.value);
      if sum.Failure? {
        return Failure(sum.error);
      }
      total := sum.value;
    }
    if total != context.estimatedTokens {
      return Failure(InconsistentAggregateEstimate(total, context.estimatedTokens));
    }
    return Success(());
  }

  function Total(documents: seq<ContextDocument>): nat {
    if documents == [] then 0 else documents[0].estimatedTokens + Total(documents[1..])
  }

  ghost predicate DistinctPaths(documents: seq<ContextDocument>) {
    forall i, j :: 0 <= i < j < |documents| ==> documents[i].path != documents[j].path
  }

  predicate HonestDocument(document: ContextDocument) {
    WellFormedPath(document.path) && document.estimatedTokens == EstimateTokens(document.content)
  }

  /** What a valid context is, with no order of checks in it. */
  ghost predicate Valid(context: ExecutionContext) {
    && HonestDocument(context.prd) && context.prd.kind == Prd && context.prd.inclusion == RequestedPrd
    && (forall document | document in context.documents ::
          HonestDocument(document) && ReferencedBy(document, context.prd.path) && document.path != context.prd.path)
    && DistinctPaths(context.documents)
    && context.estimatedTokens == context.prd.estimatedTokens + Total(context.documents)
  }

  lemma {:induction false} DocumentsValidate(
    documents: seq<ContextDocument>, prd: string, paths: set<string>, total: u64)
    ensures ValidateDocuments(documents, prd, paths, total).Success? <==>
              && (forall document | document in documents ::
                    HonestDocument(document) && ReferencedBy(document, prd) && document.path !in paths)
              && DistinctPaths(documents) && total + Total(documents) <= U64_MAX
    ensures ValidateDocuments(documents, prd, paths, total).Success? ==>
              ValidateDocuments(documents, prd, paths, total).value == total + Total(documents)
    decreases |documents|
  {
    if documents != [] {
      var document, rest := documents[0], documents[1..];
      assert forall other :: other in documents <==> other == document || other in rest;
      if ValidateDocument(document, prd, paths).Success? && total + document.estimatedTokens <= U64_MAX {
        DocumentsValidate(rest, prd, paths + {document.path}, total + document.estimatedTokens);
        DistinctFront(documents);
      }
    }
  }

  lemma DistinctFront(documents: seq<ContextDocument>)
    requires documents != []
    ensures DistinctPaths(documents) <==>
              DistinctPaths(documents[1..]) && forall other | other in documents[1..] :: other.path != documents[0].path
  {
    if DistinctPaths(documents[1..]) && forall other | other in documents[1..] :: other.path != documents[0].path {
      forall i, j | 0 <= i < j < |documents| ensures documents[i].path != documents[j].path {
        assert documents[j] == documents[1..][j - 1];
      }
    }
    if DistinctPaths(documents) {
      forall i, j | 0 <= i < j < |documents[1..]| ensures documents[1..][i].path != documents[1..][j].path {
        assert documents[i + 1].path != documents[j + 1].path;
      }
    }
  }

  /** The checks pass exactly on valid contexts. */
  lemma ValidationAcceptsExactlyValid(context: ExecutionContext)
    ensures Validation(context).Success? <==> Valid(context)
  {
    if ValidatePrd(context.prd).Success? {
      DocumentsValidate(context.documents, context.prd.path, {context.prd.path}, context.prd.estimatedTokens);
    }
  }

  /** What is wrong with a document, given the paths taken before it: the first fault counts. */
  ghost predicate Faulty(document: ContextDocument, prd: string, taken: set<string>, error: BudgetError) {
    if !WellFormedPath(document.path) then error == MalformedPath(document.path)
    else if document.path in taken then error == DuplicatePath(document.path)
    else if document.kind == Prd || document.inclusion != DirectReference(prd) then
      error == InvalidDirectDocument(document.path)
    else FaultyEstimate(document, error)
  }

  ghost predicate FaultyEstimate(document: ContextDocument, error: BudgetError) {
    var due := EstimateTokens(document.content);
    if due > U64_MAX then error == TokenArithmeticOverflow
    else due != document.estimatedTokens
         && error == InconsistentDocumentEstimate(document.path, due, document.estimatedTokens)
  }

  /** The document has a fault, or it has none and its tokens take the total out of range. */
  ghost predicate StopsValidation(
    document: ContextDocument, prd: string, taken: set<string>, total: nat, error: BudgetError)
  {
    if HonestDocument(document) && document.path !in taken && ReferencedBy(document, prd)
    then error == TokenArithmeticOverflow && total + document.estimatedTokens > U64_MAX
    else Faulty(document, prd, taken, error)
  }

  function PathsOf(documents: seq<ContextDocument>): set<string> {
    set document | document in documents :: document.path
  }

  /** The documents before the nth pass, and the nth stops the validation with this error. */
  ghost predicate FirstFault(
    documents: seq<ContextDocument>, prd: string, taken: set<string>, total: u64, n: nat, error: BudgetError)
  {
    && n < |documents|
    && var before := ValidateDocuments(documents[..n], prd, taken, total);
    before.Success? && StopsValidation(documents[n], prd, taken + PathsOf(documents[..n]), before.value, error)
  }

  lemma DocumentStops(document: ContextDocument, prd: string, paths: set<string>, total: u64, error: BudgetError)
    ensures var checked := ValidateDocument(document, prd, paths);
            StopsValidation(document, prd, paths, total, error)
            <==> checked == Failure(error)
                 || (checked.Success? && CheckedAdd(total, checked.value) == Failure(error))
  {
  }

  lemma LaterFault(
    documents: seq<ContextDocument>, prd: string, paths: set<string>, total: u64, n: nat, error: BudgetError)
    requires documents != [] && n > 0
    requires ValidateDocument(documents[0], prd, paths).Success? && total + documents[0].estimatedTokens <= U64_MAX
    ensures FirstFault(documents, prd, paths, total, n, error)
            <==> FirstFault(documents[1..], prd, paths + {documents[0].path}, total + documents[0].estimatedTokens,
                            n - 1, error)
  {
    if n < |documents| {
      var rest := documents[1..];
      assert documents[..n][0] == documents[0] && documents[..n][1..] == rest[..n - 1] && documents[n] == rest[n - 1];
      assert documents[..n] == [documents[0]] + rest[..n - 1];
      assert paths + PathsOf(documents[..n]) == paths + {documents[0].path} + PathsOf(rest[..n - 1]);
    }
  }

  lemma NoLaterFault(
    documents: seq<ContextDocument>, prd: string, paths: set<string>, total: u64, n: nat, error: BudgetError)
    requires documents != [] && n > 0
    requires ValidateDocument(documents[0], prd, paths).Failure? || total + documents[0].estimatedTokens > U64_MAX
    ensures !FirstFault(documents, prd, paths, total, n, error)
  {
    if n < |documents| {
      assert documents[..n][0] == documents[0];
    }
  }

  lemma FaultAtOnce(documents: seq<ContextDocument>, prd: string, paths: set<string>, total: u64, error: BudgetError)
    requires documents != []
    ensures FirstFault(documents, prd, paths, total, 0, error)
            <==> StopsValidation(documents[0], prd, paths, total, error)
  {
    assert documents[..0] == [] && paths + PathsOf([]) == paths;
  }

  lemma ValidateFront(documents: seq<ContextDocument>, prd: string, paths: set<string>, total: u64, error: BudgetError)
    requires documents != []
    ensures var failed := ValidateDocuments(documents, prd, paths, total) == Failure(error);
            if ValidateDocument(documents[0], prd, paths).Failure? || total + documents[0].estimatedTokens > U64_MAX
            then failed <==> StopsValidation(documents[0], prd, paths, total, error)
            else failed <==> ValidateDocuments(documents[1..], prd, paths + {documents[0].path},
                                               total + documents[0].estimatedTokens) == Failure(error)
  {
    DocumentStops(documents[0], prd, paths, total, error);
  }

  lemma NoFaultAtOnce(document: ContextDocument, prd: string, paths: set<string>, total: u64, error: BudgetError)
    requires ValidateDocument(document, prd, paths).Success? && total + document.estimatedTokens <= U64_MAX
    ensures !StopsValidation(document, prd, paths, total, error)
  {
    DocumentStops(document, prd, paths, total, error);
  }

  predicate PassesFirst(documents: seq<ContextDocument>, prd: string, paths: set<string>, total: u64)
    requires documents != []
  {
    ValidateDocument(documents[0], prd, paths).Success? && total + documents[0].estimatedTokens <= U64_MAX
  }

  lemma {:induction false} FaultStops(
    documents: seq<ContextDocument>, prd: string, paths: set<string>, total: u64, n: nat, error: BudgetError)
    requires FirstFault(documents, prd, paths, total, n, error)
    ensures ValidateDocuments(documents, prd, paths, total) == Failure(error)
    decreases |documents|
  {
    ValidateFront(documents, prd, paths, total, error);
    if n == 0 {
      FaultAtOnce(documents, prd, paths, total, error);
      if PassesFirst(documents, prd, paths, total) {
        NoFaultAtOnce(documents[0], prd, paths, total, error);
      }
    } else if PassesFirst(documents, prd, paths, total) {
      LaterFault(documents, prd, paths, total, n, error);
      FaultStops(documents[1..], prd, paths + {documents[0].path}, total + documents[0].estimatedTokens, n - 1, error);
    } else {
      NoLaterFault(documents, prd, paths, total, n, error);
    }
  }

  lemma {:induction false} FaultIsFound(
    documents: seq<ContextDocument>, prd: string, paths: set<string>, total: u64, error: BudgetError)
    returns (n: nat)
    requires ValidateDocuments(documents, prd, paths, total) == Failure(error)
    ensures FirstFault(documents, prd, paths, total, n, error)
    decreases |documents|
  {
    ValidateFront(documents, prd, paths, total, error);
    if PassesFirst(documents, prd, paths, total) {
      n := FaultIsFound(documents[1..], prd, paths + {documents[0].path}, total + documents[0].estimatedTokens, error);
      LaterFault(documents, prd, paths, total, n + 1, error);
      n := n + 1;
    } else {
      FaultAtOnce(documents, prd, paths, total, error);
      n := 0;
    }
  }

  /** Validation of the documents fails with an error exactly when that is the fault of the
      first document that has one. */
  lemma FaultsExactly(
    documents: seq<ContextDocument>, prd: string, paths: set<string>, total: u64, error: BudgetError)
    ensures ValidateDocuments(documents, prd, paths, total) == Failure(error)
            <==> exists n: nat :: FirstFault(documents, prd, paths, total, n, error)
  {
    if ValidateDocuments(documents, prd, paths, total) == Failure(error) {
      var n := FaultIsFound(documents, prd, paths, total, error);
    }
    forall n: nat | FirstFault(documents, prd, paths, total, n, error)
      ensures ValidateDocuments(documents, prd, paths, total) == Failure(error)
    {
      FaultStops(documents, prd, paths, total, n, error);
    }
  }

  // ------------------------------------------------------------------
  // Ranking
  // ------------------------------------------------------------------

  function Priority(kind: DocumentKind): nat {
    match kind
    case Prd => 0
    case Contract => 1
    case Adr => 2
    case Supporting => 3
  }

  /** Strictly before, by priority and then by path. */
  predicate Before(a: ContextDocument, b: ContextDocument) {
    Priority(a.kind) < Priority(b.kind) || (Priority(a.kind) == Priority(b.kind) && Less(a.path, b.path))
  }

  function Inserted(document: ContextDocument, ranked: seq<ContextDocument>): (result: seq<ContextDocument>)
    ensures multiset(result) == multiset(ranked) + multiset{document}
  {
    if ranked == [] || Before(document, ranked[0]) then
      assert [document] + ranked == [document] + ranked;
      [document] + ranked
    else
      assert ranked == [ranked[0]] + ranked[1..];
      [ranked[0]] + Inserted(document, ranked[1..])
  }

  /** The documents in the order they are considered. */
  function Ranked(documents: seq<ContextDocument>): (result: seq<ContextDocument>)
    ensures multiset(result) == multiset(documents)
  {
    if documents == [] then []
    else
      assert documents == [documents[0]] + documents[1..];
      Inserted(documents[0], Ranked(documents[1..]))
  }

  // ------------------------------------------------------------------
  // Budgeting
  // ------------------------------------------------------------------

  /** The loop's variables. */
  datatype Pass = Pass(used: nat, excluded: nat, selected: set<string>, decisions: seq<Decision>)

  function Considered(ceiling: u64, p: Pass, document: ContextDocument): Pass
    requires p.used <= ceiling
  {
    var remaining: u64 := ceiling - p.used;
    if document.estimatedTokens <= remaining then
      var outcome := IncludedFits(remaining, remaining - document.estimatedTokens);
      Pass(p.used + document.estimatedTokens, p.excluded, p.selected + {document.path},
           p.decisions + [Decision(document.path, document.kind, document.estimatedTokens, |p.decisions|, outcome)])
    else
      var outcome := ExcludedExceeds(document.estimatedTokens, remaining);
      Pass(p.used, p.excluded + document.estimatedTokens, p.selected,
           p.decisions + [Decision(document.path, document.kind, document.estimatedTokens, |p.decisions|, outcome)])
  }

  function ConsideredAll(ceiling: u64, p: Pass, ranked: seq<ContextDocument>): (end: Pass)
    requires p.used <= ceiling
    ensures end.used <= ceiling && end.used + end.excluded == p.used + p.excluded + Total(ranked)
    decreases |ranked|
  {
    if ranked == [] then p else ConsideredAll(ceiling, Considered(ceiling, p, ranked[0]), ranked[1..])
  }

  function Start(prd: ContextDocument): Pass {
    Pass(prd.estimatedTokens, 0, {}, [Decision(prd.path, prd.kind, prd.estimatedTokens, 0, IncludedMandatory)])
  }

  /** The kept documents, in the order they were given. */
  function Kept(documents: seq<ContextDocument>, selected: set<string>): seq<ContextDocument> {
    if documents == [] then []
    else (if documents[0].path in selected then [documents[0]] else []) + Kept(documents[1..], selected)
  }

  /** The result for a valid context: the only error left is a PRD above the ceiling. */
  function Budget(context: ExecutionContext, ceiling: u64): Result<Budgeted, BudgetError>
    requires Valid(context)
  {
    if context.prd.estimatedTokens > ceiling then
      Failure(PrdExceedsHardCeiling(context.prd.path, context.prd.estimatedTokens, ceiling))
    else
      RankedTotal(context.documents);
      var end := ConsideredAll(ceiling, Start(context.prd), Ranked(context.documents));
      Success(Budgeted(ExecutionContext(context.prd, Kept(context.documents, end.selected), end.used),
                       ceiling, context.estimatedTokens, end.used, end.excluded, end.decisions))
  }

  lemma {:induction false} TotalOfInserted(document: ContextDocument, ranked: seq<ContextDocument>)
    ensures Total(Inserted(document, ranked)) == document.estimatedTokens + Total(ranked)
  {
    if ranked != [] && !Before(document, ranked[0]) {
      TotalOfInserted(document, ranked[1..]);
    } else {
      assert ([document] + ranked)[1..] == ranked;
    }
  }

  lemma {:induction false} RankedTotal(documents: seq<ContextDocument>)
    ensures Total(Ranked(documents)) == Total(documents)
  {
    if documents != [] {
      RankedTotal(documents[1..]);
      TotalOfInserted(documents[0], Ranked(documents[1..]));
    }
  }

  /** One document of the source's loop, with its checked arithmetic. */
  method ConsiderOne(ceiling: u64, p: Pass, document: ContextDocument) returns (result: Result<Pass, BudgetError>)
    requires p.used <= ceiling && p.excluded + document.estimatedTokens <= U64_MAX
    ensures result == Success(Considered(ceiling, p, document))
  {
    var remaining := CheckedSub(ceiling, p.used);
    if remaining.Failure? {
      return Failure(TokenArithmeticOverflow);
    }
    var used, excluded, selected := p.used, p.excluded, p.selected;
    var outcome;
    if document.estimatedTokens <= remaining.value {
      var after := CheckedSub(remaining.value, document.estimatedTokens);
      if after.Failure? {
        return Failure(TokenArithmeticOverflow);
      }
      var sum := CheckedAdd(used, document.estimatedTokens);
      if sum.Failure? {
        return Failure(TokenArithmeticOverflow);
      }
      used := sum.value;
      selected := selected + {document.path};
      outcome := IncludedFits(remaining.value, after.value);
    } else {
      var sum := CheckedAdd(excluded, document.estimatedTokens);
      if sum.Failure? {
        return Failure(TokenArithmeticOverflow);
      }
      excluded := sum.value;
      outcome := ExcludedExceeds(document.estimatedTokens, remaining.value);
    }
    var made := Decision(document.path, document.kind, document.estimatedTokens, |p.decisions|, outcome);
    return Success(Pass(used, excluded, selected, p.decisions + [made]));
  }

  /** The budgeter as the source runs it. Every checked operation after validation
      succeeds, and the report always reconciles. */
  method RunBudget(context: ExecutionContext, ceiling: u64) returns (result: Result<Budgeted, BudgetError>)
    ensures !Valid(context) ==> Validation(context).Failure? && result == Failure(Validation(context).error)
    ensures Valid(context) ==> result == Budget(context, ceiling)
  {
    ValidationAcceptsExactlyValid(context);
    var validation := ValidateContext(context);
    if validation.Failure? {
      return Failure(validation.error);
    }
    if context.prd.estimatedTokens > ceiling {
      return Failure(PrdExceedsHardCeiling(context.prd.path, context.prd.estimatedTokens, ceiling));
    }
    var ranked := Ranked(context.documents);
    RankedTotal(context.documents);
    var p := Start(context.prd);
    for i := 0 to |ranked|
      invariant p.used <= ceiling && p.used + p.excluded + Total(ranked[i..]) == context.estimatedTokens
      invariant ConsideredAll(ceiling, Start(context.prd), ranked) == ConsideredAll(ceiling, p, ranked[i..])
    {
      assert ranked[i..][1..] == ranked[i + 1..];
      var next := ConsiderOne(ceiling, p, ranked[i]);
      if next.Failure? {
        return Failure(TokenArithmeticOverflow);
      }
      p := next.value;
    }
    var reconciled := CheckedAdd(p.used, p.excluded);
    if reconciled.Failure? {
      return Failure(TokenArithmeticOverflow);
    }
    var total: u64 := reconciled.value;
    if total != context.estimatedTokens {
      return Failure(InconsistentAggregateEstimate(total, context.estimatedTokens));
    }
    var documents := Kept(context.documents, p.selected);
    return Success(Budgeted(ExecutionContext(context.prd, documents, p.used),
                            ceiling, context.estimatedTokens, p.used, p.excluded, p.decisions));
  }
}
