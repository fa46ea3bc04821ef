/** Targeted edits: swapping anchored text in a file, and replaying such a swap
    (crates/familiar-ai-agent/src/token_discipline.rs, lines 49-63 and 153-246). */
module TargetedEdit {
  import opened Wrappers
  import opened ToolCalls
  import StringOrder

  datatype Block = Block(search: string, replace: string)

  datatype EditError =
    | EmptyAnchor(index: nat)
    | AnchorMissing(index: nat)
    | AnchorAmbiguous(index: nat, matches: nat)
    | MalformedEdit
    | DiagnosticPanic(index: nat)

  datatype AppliedEdit = AppliedEdit(content: string, alreadyApplied: bool)

  // ------------------------------------------------------------------
  // Matching
  // ------------------------------------------------------------------

  predicate OccursAt(text: string, i: nat, needle: string) {
    i + |needle| <= |text| && text[i..i + |needle|] == needle
  }

  lemma OccursBehind(front: string, s: string, j: nat, needle: string)
    ensures OccursAt(s, j, needle) <==> j + |needle| <= |s| && OccursAt(front + s, |front| + j, needle)
  {
    if j + |needle| <= |s| {
      assert (front + s)[|front| + j..|front| + j + |needle|] == s[j..j + |needle|];
    }
  }

  lemma OccursInTail(text: string, needle: string)
    requires text != ""
    ensures forall j: nat :: j > 0 ==> (OccursAt(text, j, needle) <==> OccursAt(text[1..], j - 1, needle))
    ensures forall j: nat :: OccursAt(text[1..], j, needle) ==> OccursAt(text, j + 1, needle)
  {
    assert text == text[..1] + text[1..];
    forall j: nat ensures OccursAt(text[1..], j, needle) <==> OccursAt(text, j + 1, needle) {
      OccursBehind(text[..1], text[1..], j, needle);
    }
    forall j: nat | j > 0 ensures OccursAt(text, j, needle) <==> OccursAt(text[1..], j - 1, needle) {
      OccursBehind(text[..1], text[1..], j - 1, needle);
    }
  }

  /** The leftmost occurrence. */
  function Find(text: string, needle: string): (found: Option<nat>)
    requires needle != ""
    ensures found.Some? ==>
              OccursAt(text, found.value, needle) && forall j: nat :: j < found.value ==> !OccursAt(text, j, needle)
    ensures found.None? ==> forall j: nat :: !OccursAt(text, j, needle)
  {
    if |text| < |needle| then None
    else if text[..|needle|] == needle then Some(0)
    else
      OccursInTail(text, needle);
      var rest := Find(text[1..], needle);
      if rest.None? then None else Some(rest.value + 1)
  }

  /** How many occurrences there are, scanning from the left without overlaps. */
  function Matches(text: string, needle: string): nat
    requires needle != ""
    decreases |text|
  {
    match Find(text, needle)
    case None => 0
    case Some(i) => 1 + Matches(text[i + |needle|..], needle)
  }

  /** The text with its leftmost occurrence replaced. */
  function ReplaceFirst(text: string, needle: string, replacement: string): string
    requires needle != ""
  {
    match Find(text, needle)
    case None => text
    case Some(i) => text[..i] + replacement + text[i + |needle|..]
  }

  /** These are occurrences, in order, none reaching into the next. */
  ghost predicate Apart(text: string, needle: string, at: seq<nat>) {
    && (forall k :: 0 <= k < |at| ==> OccursAt(text, at[k], needle))
    && forall k :: 0 <= k < |at| - 1 ==> at[k] + |needle| <= at[k + 1]
  }

  /** Scanning from the left counts as many occurrences as there can be without overlaps. */
  lemma {:induction false} MatchesAreMost(text: string, needle: string, at: seq<nat>)
    requires needle != "" && Apart(text, needle, at)
    ensures |at| <= Matches(text, needle)
    decreases |text|
  {
    if at != [] {
      assert OccursAt(text, at[0], needle);
      var end := Find(text, needle).value + |needle|;
      var rest := RestApart(text, needle, at, end);
      MatchesAreMost(text[end..], needle, rest);
    }
  }

  /** The occurrences after the first, seen from a place no later than its end. */
  lemma RestApart(text: string, needle: string, at: seq<nat>, end: nat) returns (rest: seq<nat>)
    requires Apart(text, needle, at) && at != [] && end <= at[0] + |needle| && end <= |text|
    ensures |rest| == |at| - 1 && Apart(text[end..], needle, rest)
  {
    assert text == text[..end] + text[end..];
    forall k | 1 <= k < |at| ensures at[k] >= end && OccursAt(text[end..], at[k] - end, needle) {
      ApartFrom(text, needle, at, k);
      OccursBehind(text[..end], text[end..], at[k] - end, needle);
    }
    rest := seq(|at| - 1, k requires 0 <= k < |at| - 1 => at[k + 1] - end);
    forall k | 0 <= k < |rest| - 1 ensures rest[k] + |needle| <= rest[k + 1] {
      assert at[k + 1] + |needle| <= at[k + 1 + 1];
    }
  }

  lemma {:induction false} ApartFrom(text: string, needle: string, at: seq<nat>, k: nat)
    requires Apart(text, needle, at) && 1 <= k < |at|
    ensures at[0] + |needle| <= at[k]
  {
    if k > 1 {
      ApartFrom(text, needle, at, k - 1);
      assert at[k - 1] + |needle| <= at[k - 1 + 1];
    }
  }

  /** And it finds that many. */
  lemma {:induction false} MatchesAreThere(text: string, needle: string) returns (at: seq<nat>)
    requires needle != ""
    ensures Apart(text, needle, at) && |at| == Matches(text, needle)
    decreases |text|
  {
    at := [];
    if Find(text, needle).Some? {
      var start := Find(text, needle).value;
      var rest := MatchesAreThere(text[start + |needle|..], needle);
      at := OneMoreApart(text, needle, start, rest);
    }
  }

  lemma OneMoreApart(text: string, needle: string, start: nat, rest: seq<nat>) returns (at: seq<nat>)
    requires OccursAt(text, start, needle) && Apart(text[start + |needle|..], needle, rest)
    ensures Apart(text, needle, at) && |at| == |rest| + 1
  {
    var end := start + |needle|;
    assert text == text[..end] + text[end..];
    var moved := seq(|rest|, k requires 0 <= k < |rest| => rest[k] + end);
    forall k | 0 <= k < |rest| ensures OccursAt(text, moved[k], needle) {
      OccursBehind(text[..end], text[end..], rest[k], needle);
    }
    at := [start] + moved;
    forall k | 0 <= k < |at| - 1 ensures at[k] + |needle| <= at[k + 1] {
      if k > 0 {
        assert rest[k - 1] + |needle| <= rest[k - 1 + 1];
      }
    }
  }

  // ------------------------------------------------------------------
  // Applying blocks
  // ------------------------------------------------------------------

  predicate AlreadyThere(working: string, block: Block)
    requires block.search != ""
  {
    Matches(working, block.search) == 0 && block.replace != "" && Matches(working, block.replace) == 1
  }

  /** The anchor can be quoted in a message: its first eighty bytes end between two characters. */
  predicate Quotable(anchor: string) {
    Utf8Length(anchor) <= 80 || exists i :: 0 <= i <= |anchor| && Utf8Length(anchor[..i]) == 80
  }

  /** Refusing a block quotes its anchor, which panics when the anchor cannot be cut at byte eighty. */
  function RefusalOf(block: Block, index: nat, error: EditError): EditError {
    if Quotable(block.search) then error else DiagnosticPanic(index)
  }

  /** One block against a working copy: the new copy, and whether it was written. */
  function ApplyOne(working: string, block: Block, index: nat): Result<(string, bool), EditError> {
    if block.search == "" then Failure(EmptyAnchor(index))
    else
      var occurrences := Matches(working, block.search);
      if occurrences == 1 then Success((ReplaceFirst(working, block.search, block.replace), true))
      else if occurrences == 0 then
        if AlreadyThere(working, block) then Success((working, false))
        else Failure(RefusalOf(block, index, AnchorMissing(index)))
      else Failure(RefusalOf(block, index, AnchorAmbiguous(index, occurrences)))
  }

  function ApplyAll(working: string, wrote: bool, blocks: seq<Block>, index: nat): Result<AppliedEdit, EditError>
    decreases |blocks|
  {
    if blocks == [] then Success(AppliedEdit(working, !wrote))
    else
      match ApplyOne(working, blocks[0], index)
      case Failure(error) => Failure(error)
      case Success((next, written)) => ApplyAll(next, wrote || written, blocks[1..], index + 1)
  }

  function Applied(current: string, blocks: seq<Block>): Result<AppliedEdit, EditError> {
    ApplyAll(current, false, blocks, 0)
  }

  /** The edit as the source runs it: a working copy and a flag. */
  method ApplyTargetedEdit(current: string, blocks: seq<Block>) returns (result: Result<AppliedEdit, EditError>)
    ensures result == Applied(current, blocks)
  {
    var working, wroteAnyBlock := current, false;
    for index := 0 to |blocks|
      invariant Applied(current, blocks) == ApplyAll(working, wroteAnyBlock, blocks[index..], index)
    {
      assert blocks[index..][1..] == blocks[index + 1..];
      var block := blocks[index];
      if block.search == "" {
        return Failure(EmptyAnchor(index));
      }
      var occurrences := Matches(working, block.search);
      if occurrences == 1 {
        working := ReplaceFirst(working, block.search, block.replace);
        wroteAnyBlock := true;
      } else if occurrences == 0 {
        var replacementOccurrences := if block.replace == "" then 0 else Matches(working, block.replace);
        if replacementOccurrences != 1 {
          return Failure(if Quotable(block.search) then AnchorMissing(index) else DiagnosticPanic(index));
        }
      } else {
        return Failure(if Quotable(block.search) then AnchorAmbiguous(index, occurrences) else DiagnosticPanic(index));
      }
    }
    return Success(AppliedEdit(working, !wroteAnyBlock));
  }

  // ------------------------------------------------------------------
  // What a write does
  // ------------------------------------------------------------------

  lemma NoMatchesMeansNoOccurrence(text: string, needle: string)
    requires needle != ""
    ensures Matches(text, needle) == 0 <==> forall j: nat :: !OccursAt(text, j, needle)
  {
  }

  /** A written block turns p + search + s into p + replace + s, where that occurrence is
      the leftmost one and s holds no further one. */
  lemma WriteSwapsTheOnlyMatch(working: string, block: Block, index: nat)
    requires block.search != "" && Matches(working, block.search) == 1
    ensures Find(working, block.search).Some?
    ensures var i := Find(working, block.search).value;
            var p, s := working[..i], working[i + |block.search|..];
            && working == p + block.search + s
            && ApplyOne(working, block, index) == Success((p + block.replace + s, true))
            && (forall j: nat :: j < |p| ==> !OccursAt(working, j, block.search))
            && (forall j: nat :: !OccursAt(s, j, block.search))
  {
    var i := Find(working, block.search).value;
    NoMatchesMeansNoOccurrence(working[i + |block.search|..], block.search);
    SplitAround(working, i, block.search);
  }

  lemma SplitAround(text: string, i: nat, needle: string)
    requires OccursAt(text, i, needle)
    ensures text == text[..i] + needle + text[i + |needle|..]
  {
  }

  // ------------------------------------------------------------------
  // Lists of blocks
  // ------------------------------------------------------------------

  /** Applying a list is applying its parts in turn. */
  lemma {:induction false} ApplyingInParts(
    working: string, wrote: bool, first: seq<Block>, rest: seq<Block>, index: nat)
    ensures ApplyAll(working, wrote, first + rest, index)
            == match ApplyAll(working, wrote, first, index)
               case Failure(error) => Failure(error)
               case Success(done) => ApplyAll(done.content, !done.alreadyApplied, rest, index + |first|)
    decreases |first|
  {
    if first == [] {
      assert first + rest == rest;
    } else {
      assert (first + rest)[1..] == first[1..] + rest;
      var one := ApplyOne(working, first[0], index);
      if one.Success? {
        ApplyingInParts(one.value.0, wrote || one.value.1, first[1..], rest, index + 1);
      }
    }
  }

  /** An edit reported as already applied left the content alone. */
  lemma {:induction false} AlreadyAppliedChangesNothing(working: string, wrote: bool, blocks: seq<Block>, index: nat)
    requires ApplyAll(working, wrote, blocks, index).Success?
             && ApplyAll(working, wrote, blocks, index).value.alreadyApplied
    ensures !wrote && ApplyAll(working, wrote, blocks, index).value.content == working
    decreases |blocks|
  {
    if blocks != [] {
      var one := ApplyOne(working, blocks[0], index).value;
      AlreadyAppliedChangesNothing(one.0, wrote || one.1, blocks[1..], index + 1);
    }
  }

  // ------------------------------------------------------------------
  // Replay
  // ------------------------------------------------------------------

  /** No anchor occurs in the content, and each replacement occurs exactly once. */
  ghost predicate Landed(content: string, blocks: seq<Block>) {
    forall block | block in blocks ::
      block.search != "" && Matches(content, block.search) == 0
      && block.replace != "" && Matches(content, block.replace) == 1
  }

  /** An edit is recognised as already applied exactly when it has visibly landed:
      this is the whole of the replay promise. */
  lemma {:induction false} ReplayIsRecognisedExactlyWhenLanded(content: string, blocks: seq<Block>, index: nat)
    ensures ApplyAll(content, false, blocks, index) == Success(AppliedEdit(content, true)) <==> Landed(content, blocks)
    decreases |blocks|
  {
    if blocks != [] {
      var one := ApplyOne(content, blocks[0], index);
      if one.Success? && !one.value.1 {
        ReplayIsRecognisedExactlyWhenLanded(content, blocks[1..], index + 1);
      } else if one.Success? {
        if ApplyAll(one.value.0, true, blocks[1..], index + 1) == Success(AppliedEdit(content, true)) {
          AlreadyAppliedChangesNothing(one.value.0, true, blocks[1..], index + 1);
        }
      }
    }
  }

  /** The block does nothing to the content: it shows as landed there, or it replaces a
      unique text by itself. */
  predicate Quiet(content: string, block: Block) {
    block.search != ""
    && (AlreadyThere(content, block) || (Matches(content, block.search) == 1 && block.search == block.replace))
  }

  ghost predicate AllQuiet(content: string, blocks: seq<Block>) {
    forall block | block in blocks :: Quiet(content, block)
  }

  /** Texts by length, and among those of one length by their characters. */
  predicate Below(a: string, b: string) {
    |a| < |b| || (|a| == |b| && StringOrder.Less(a, b))
  }

  /** The content went the given way. */
  predicate Moved(up: bool, before: string, after: string) {
    if up then Below(before, after) else Below(after, before)
  }

  /** A block that replaces text only by larger text, or only by smaller, or by itself. */
  predicate Points(up: bool, block: Block) {
    block.search == block.replace || Moved(up, block.search, block.replace)
  }

  ghost predicate AllPoint(up: bool, blocks: seq<Block>) {
    forall block | block in blocks :: Points(up, block)
  }

  /** All blocks of a call point the same way. A single block always does. */
  ghost predicate OneWay(blocks: seq<Block>) {
    AllPoint(true, blocks) || AllPoint(false, blocks)
  }

  lemma OneBlockIsOneWay(block: Block)
    ensures OneWay([block])
  {
    StringOrder.LessIsTotal(block.search, block.replace);
    assert Points(true, block) || Points(false, block);
  }

  lemma {:induction false} LessBehind(p: string, a: string, b: string)
    requires StringOrder.Less(a, b)
    ensures StringOrder.Less(p + a, p + b)
  {
    if p == "" {
      assert p + a == a && p + b == b;
    } else {
      LessBehind(p[1..], a, b);
      assert (p + a)[1..] == p[1..] + a && (p + b)[1..] == p[1..] + b;
    }
  }

  lemma {:induction false} LessInFront(a: string, b: string, s: string)
    requires |a| == |b| && StringOrder.Less(a, b)
    ensures StringOrder.Less(a + s, b + s)
  {
    assert (a + s)[1..] == a[1..] + s && (b + s)[1..] == b[1..] + s;
    if a[0] == b[0] { LessInFront(a[1..], b[1..], s); }
  }

  /** Replacing a part moves the whole the same way. */
  lemma BelowInside(p: string, a: string, b: string, s: string)
    requires Below(a, b)
    ensures Below(p + a + s, p + b + s)
  {
    if |a| == |b| {
      LessBehind(p, a, b);
      LessInFront(p + a, p + b, s);
    }
  }

  lemma BelowIsStrict(a: string, b: string, c: string)
    ensures !Below(a, a)
    ensures Below(a, b) && Below(b, c) ==> Below(a, c)
  {
    StringOrder.LessIsIrreflexive(a);
    if StringOrder.Less(a, b) && StringOrder.Less(b, c) { StringOrder.LessIsTransitive(a, b, c); }
  }

  /** What one block that points a way does to the content: nothing, exactly when it is
      quiet there, or it moves it that way. */
  lemma OneBlockMoves(up: bool, working: string, block: Block, index: nat)
    requires Points(up, block) && ApplyOne(working, block, index).Success?
    ensures var next := ApplyOne(working, block, index).value.0;
            if Quiet(working, block) then next == working else Moved(up, working, next)
  {
    if Matches(working, block.search) == 1 {
      var i := Find(working, block.search).value;
      var p, s := working[..i], working[i + |block.search|..];
      SplitAround(working, i, block.search);
      if block.search != block.replace {
        if up {
          BelowInside(p, block.search, block.replace, s);
        } else {
          BelowInside(p, block.replace, block.search, s);
        }
      }
    }
  }

  /** Blocks that point one way move the content that way, or all of them are quiet. */
  lemma {:induction false} BlocksMove(up: bool, working: string, wrote: bool, blocks: seq<Block>, index: nat)
    requires AllPoint(up, blocks)
    requires ApplyAll(working, wrote, blocks, index).Success?
    ensures var after := ApplyAll(working, wrote, blocks, index).value.content;
            (after == working && AllQuiet(working, blocks)) || Moved(up, working, after)
    decreases |blocks|
  {
    if blocks != [] {
      var one := ApplyOne(working, blocks[0], index).value;
      OneBlockMoves(up, working, blocks[0], index);
      BlocksMove(up, one.0, wrote || one.1, blocks[1..], index + 1);
      var after := ApplyAll(working, wrote, blocks, index).value.content;
      BelowIsStrict(working, one.0, after);
      BelowIsStrict(after, one.0, working);
      assert blocks == [blocks[0]] + blocks[1..];
    }
  }

  /** Quiet blocks leave any content alone, whatever way they point. */
  lemma {:induction false} QuietBlocksKeep(content: string, wrote: bool, blocks: seq<Block>, index: nat)
    requires AllQuiet(content, blocks)
    ensures ApplyAll(content, wrote, blocks, index).Success?
    ensures ApplyAll(content, wrote, blocks, index).value.content == content
    decreases |blocks|
  {
    if blocks != [] {
      assert Quiet(content, blocks[0]);
      QuietBlockKeeps(content, blocks[0], index);
      QuietBlocksKeep(content, wrote || ApplyOne(content, blocks[0], index).value.1, blocks[1..], index + 1);
    }
  }

  lemma QuietBlockKeeps(content: string, block: Block, index: nat)
    requires Quiet(content, block)
    ensures ApplyOne(content, block, index).Success? && ApplyOne(content, block, index).value.0 == content
  {
    if Matches(content, block.search) == 1 {
      SplitAround(content, Find(content, block.search).value, block.search);
    }
  }

  /** For the blocks of a call that all point one way, and so for any single block: applying
      them to a content they may have produced leaves it exactly when each is quiet there. */
  lemma ReplayKeepsExactlyWhen(content: string, blocks: seq<Block>)
    requires OneWay(blocks)
    ensures var again := Applied(content, blocks);
            (again.Success? && again.value.content == content) <==> AllQuiet(content, blocks)
  {
    var up := AllPoint(true, blocks);
    if Applied(content, blocks).Success? {
      BlocksMove(up, content, false, blocks, 0);
      BelowIsStrict(content, content, content);
    }
    if AllQuiet(content, blocks) {
      QuietBlocksKeep(content, false, blocks, 0);
    }
  }

  /** For one block: applying it twice gives what applying it once gave exactly when the
      first result shows it as landed, or it replaces a unique text by itself. */
  lemma OneBlockReplaysExactlyWhen(current: string, block: Block)
    requires Applied(current, [block]).Success?
    ensures var once := Applied(current, [block]).value.content;
            var twice := Applied(once, [block]);
            (twice.Success? && twice.value.content == once)
            <==> AlreadyThere(once, block) || (Matches(once, block.search) == 1 && block.search == block.replace)
  {
    var once := Applied(current, [block]).value.content;
    OneBlockApplies(current, block);
    OneBlockIsOneWay(block);
    ReplayKeepsExactlyWhen(once, [block]);
    assert AllQuiet(once, [block]) <==> Quiet(once, block);
  }

  /** Blocks that point against each other can cancel: the content stays, though none is quiet. */
  lemma OpposedBlocksCanCancel()
    ensures var blocks := [Block("x", "y"), Block("y", "x")];
            Applied("x", blocks) == Success(AppliedEdit("x", false)) && !AllQuiet("x", blocks) && !OneWay(blocks)
  {
    var blocks := [Block("x", "y"), Block("y", "x")];
    OneLetter("x", "y");
    OneLetter("y", "x");
    assert blocks[1..] == [Block("y", "x")] && blocks[1..][1..] == [];
    assert ApplyOne("x", blocks[0], 0) == Success(("y", true));
    assert ApplyOne("y", blocks[1], 1) == Success(("x", true));
    assert ApplyAll("x", true, blocks[1..][1..], 2) == Success(AppliedEdit("x", false));
    assert ApplyAll("y", true, blocks[1..], 1) == Success(AppliedEdit("x", false));
    assert Matches("x", "x") == 1;
    assert blocks[0] in blocks && blocks[1] in blocks && !Quiet("x", blocks[0]);
    assert StringOrder.Less("x", "y") && !StringOrder.Less("y", "x");
  }

  lemma OneLetter(a: string, b: string)
    requires |a| == |b| == 1
    ensures Matches(a, a) == 1 && ReplaceFirst(a, a, b) == b
  {
    assert a[..1] == a && a[1..] == "";
    assert Find(a, a) == Some(0);
    assert Matches("", a) == 0;
    assert a[..0] + b + a[1..] == b;
  }

  // ------------------------------------------------------------------
  // Refusals
  // ------------------------------------------------------------------

  /** The block fits the copy neither as an edit nor as one already made. */
  predicate Refused(working: string, block: Block) {
    && block.search != "" && Matches(working, block.search) != 1
    && (Matches(working, block.search) == 0 ==> block.replace == "" || Matches(working, block.replace) != 1)
  }

  /** The error a block that does not apply is refused with. */
  predicate RefusedWith(working: string, block: Block, index: nat, error: EditError) {
    if block.search == "" then error == EmptyAnchor(index)
    else
      && Refused(working, block)
      && error == if !Quotable(block.search) then DiagnosticPanic(index)
                  else if Matches(working, block.search) == 0 then AnchorMissing(index)
                  else AnchorAmbiguous(index, Matches(working, block.search))
  }

  /** The blocks before the kth apply, and the kth is refused so. */
  predicate FirstRefused(
    working: string, wrote: bool, blocks: seq<Block>, index: nat, k: nat, error: EditError)
  {
    && k < |blocks|
    && var before := ApplyAll(working, wrote, blocks[..k], index);
    before.Success? && RefusedWith(before.value.content, blocks[k], index + k, error)
  }

  /** An edit fails with an error exactly when that is the error of its first refused block. */
  lemma {:induction false} FailsExactly(
    working: string, wrote: bool, blocks: seq<Block>, index: nat, error: EditError)
    ensures ApplyAll(working, wrote, blocks, index) == Failure(error)
            <==> exists k :: FirstRefused(working, wrote, blocks, index, k, error)
    decreases |blocks|
  {
    if blocks != [] {
      var one := ApplyOne(working, blocks[0], index);
      assert one == Failure(error) <==> RefusedWith(working, blocks[0], index, error);
      assert FirstRefused(working, wrote, blocks, index, 0, error) <==> one == Failure(error);
      forall k: nat | k > 0
        ensures FirstRefused(working, wrote, blocks, index, k, error)
                <==> one.Success?
                     && FirstRefused(one.value.0, wrote || one.value.1, blocks[1..], index + 1, k - 1, error)
      {
        LaterRefused(working, wrote, blocks, index, k, error);
      }
      if one.Success? {
        var next, writes, rest, from := one.value.0, wrote || one.value.1, blocks[1..], index + 1;
        FailsExactly(next, writes, rest, from, error);
        if k: nat :| FirstRefused(next, writes, rest, from, k, error) {
          assert FirstRefused(working, wrote, blocks, index, k + 1, error);
        }
      }
    }
  }

  lemma LaterRefused(working: string, wrote: bool, blocks: seq<Block>, index: nat, k: nat, error: EditError)
    requires blocks != [] && k > 0
    ensures var one := ApplyOne(working, blocks[0], index);
            FirstRefused(working, wrote, blocks, index, k, error)
            <==> one.Success? && FirstRefused(one.value.0, wrote || one.value.1, blocks[1..], index + 1, k - 1, error)
  {
    if k < |blocks| {
      assert blocks[..k][0] == blocks[0] && blocks[..k][1..] == blocks[1..][..k - 1];
    }
  }

  /** The blocks before the kth apply, and the kth is refused with an anchor that cannot be quoted. */
  predicate UnquotableAt(working: string, wrote: bool, blocks: seq<Block>, index: nat, k: nat) {
    && k < |blocks| && !Quotable(blocks[k].search)
    && var before := ApplyAll(working, wrote, blocks[..k], index);
    before.Success? && Refused(before.value.content, blocks[k])
  }

  lemma {:induction false} PanicNamesABlock(working: string, wrote: bool, blocks: seq<Block>, index: nat)
    ensures var result := ApplyAll(working, wrote, blocks, index);
            result.Failure? && result.error.DiagnosticPanic? ==> index <= result.error.index < index + |blocks|
    decreases |blocks|
  {
    if blocks != [] {
      var one := ApplyOne(working, blocks[0], index);
      if one.Success? {
        PanicNamesABlock(one.value.0, wrote || one.value.1, blocks[1..], index + 1);
      }
    }
  }

  /** A call panics over its kth block exactly when that block is the first refused and its
      anchor cannot be quoted. */
  lemma {:induction false} PanicsExactly(working: string, wrote: bool, blocks: seq<Block>, index: nat, k: nat)
    ensures ApplyAll(working, wrote, blocks, index) == Failure(DiagnosticPanic(index + k))
            <==> UnquotableAt(working, wrote, blocks, index, k)
    decreases |blocks|
  {
    if blocks != [] {
      var one := ApplyOne(working, blocks[0], index);
      if one.Success? {
        PanicNamesABlock(one.value.0, wrote || one.value.1, blocks[1..], index + 1);
      }
      if k > 0 {
        if one.Success? {
          PanicsExactly(one.value.0, wrote || one.value.1, blocks[1..], index + 1, k - 1);
        }
        if k <= |blocks| {
          assert blocks[..k][0] == blocks[0] && blocks[..k][1..] == blocks[1..][..k - 1];
        }
      }
    }
  }

  /** A call all of whose anchors can be quoted never panics, whatever the content. */
  lemma QuotableNeverPanics(current: string, blocks: seq<Block>)
    requires forall block | block in blocks :: Quotable(block.search)
    ensures forall k: nat :: Applied(current, blocks) != Failure(DiagnosticPanic(k))
  {
    forall k: nat ensures Applied(current, blocks) != Failure(DiagnosticPanic(k)) {
      if k < |blocks| {
        assert blocks[k] in blocks;
      }
      PanicsExactly(current, false, blocks, 0, k);
    }
  }

  ghost predicate SomeEditPanics(anchor: string) {
    exists current, replacement :: Applied(current, [Block(anchor, replacement)]) == Failure(DiagnosticPanic(0))
  }

  /** Some content and replacement make an anchor panic exactly when it cannot be quoted. */
  lemma AnchorCanPanicExactly(anchor: string)
    ensures SomeEditPanics(anchor) <==> !Quotable(anchor)
  {
    if Quotable(anchor) {
      forall current, replacement
        ensures Applied(current, [Block(anchor, replacement)]) != Failure(DiagnosticPanic(0))
      {
        QuotableNeverPanics(current, [Block(anchor, replacement)]);
      }
    } else {
      assert anchor != "" && Matches("", anchor) == 0;
      OneBlockApplies("", Block(anchor, ""));
      assert Applied("", [Block(anchor, "")]) == Failure(DiagnosticPanic(0));
    }
  }

  /** Refusing an anchor of seventy-nine one-byte characters and one of two bytes panics. */
  lemma QuotingCanPanic(anchor: string)
    requires |anchor| == 80 && (forall i :: 0 <= i < 79 ==> anchor[i] < 128 as char) && anchor[79] == 0xE9 as char
    ensures Applied("", [Block(anchor, "")]) == Failure(DiagnosticPanic(0))
  {
    PrefixBytes(anchor, 80);
    forall i | 0 <= i <= 80 ensures Utf8Length(anchor[..i]) != 80 {
      PrefixBytes(anchor, i);
    }
    assert anchor[..80] == anchor;
    assert Matches("", anchor) == 0;
    OneBlockApplies("", Block(anchor, ""));
  }

  lemma {:induction false} PrefixBytes(anchor: string, n: nat)
    requires |anchor| == 80 && (forall i :: 0 <= i < 79 ==> anchor[i] < 128 as char) && anchor[79] == 0xE9 as char
    requires n <= 80
    ensures Utf8Length(anchor[..n]) == if n == 80 then 81 else n
  {
    if n > 0 {
      PrefixBytes(anchor, n - 1);
      assert anchor[..n] == anchor[..n - 1] + [anchor[n - 1]];
      Utf8LengthAppend(anchor[..n - 1], anchor[n - 1]);
    }
  }

  lemma {:induction false} Utf8LengthAppend(text: string, c: char)
    ensures Utf8Length(text + [c]) == Utf8Length(text) + Utf8Length([c])
  {
    if text == "" {
      assert text + [c] == [c];
    } else {
      assert (text + [c])[1..] == text[1..] + [c];
      Utf8LengthAppend(text[1..], c);
    }
  }

  lemma OneBlockApplies(working: string, block: Block)
    ensures var one := ApplyOne(working, block, 0);
            Applied(working, [block])
            == if one.Success? then Success(AppliedEdit(one.value.0, !one.value.1)) else Failure(one.error)
  {
    var blocks := [block];
    assert blocks[1..] == [];
    var one := ApplyOne(working, blocks[0], 0);
    if one.Success? {
      assert ApplyAll(one.value.0, false || one.value.1, blocks[1..], 1)
             == Success(AppliedEdit(one.value.0, !one.value.1));
    }
  }

  /** The documented promise that a replayed edit reaches the same file does not hold
      for every edit: inserting after an anchor that stays in place inserts again. */
  lemma ReplayCanApplyTwice()
    ensures var block := Block("x", "xy");
            Applied("x", [block]) == Success(AppliedEdit("xy", false))
            && Applied("xy", [block]) == Success(AppliedEdit("xyy", false))
  {
    var block := Block("x", "xy");
    assert [block][1..] == [];
    assert "x"[1..] == "" && "xy"[1..] == "y";
    assert Find("x", "x") == Some(0) && Matches("", "x") == 0;
    assert Find("xy", "x") == Some(0);
    assert "y"[..1] == "y";
    assert Find("y", "x") == None;
    assert Matches("y", "x") == 0;
    assert "x"[..0] + "xy" + "x"[1..] == "xy";
    assert "xy"[..0] + "xy" + "xy"[1..] == "xyy";
  }
}
