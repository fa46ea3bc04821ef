/** The serialized forms of a targeted edit: unified-diff hunks and search/replace blocks
    (crates/familiar-ai-agent/src/token_discipline.rs, lines 18-151 and 247-273). Lines of a
    text as the source splits them, the parser over those lines, a printer that is its
    partner, and the three forms an edit call may take. Printing any hunks and parsing them
    gives the blocks a reader of the diff expects, so the forms mean the same edit. */
module UnifiedDiff {
  import opened Wrappers
  import opened TargetedEdit

  // ------------------------------------------------------------------
  // Lines of a text
  // ------------------------------------------------------------------

  function FirstNewline(text: string): (i: nat)
    ensures i <= |text| && (forall j :: 0 <= j < i ==> text[j] != '\n') && (i < |text| ==> text[i] == '\n')
  {
    if text == "" || text[0] == '\n' then 0
    else
      var rest := FirstNewline(text[1..]);
      assert forall j :: 1 <= j < 1 + rest ==> text[j] == text[1..][j - 1];
      1 + rest
  }

  function StripReturn(line: string): string {
    if line != "" && line[|line| - 1] == '\r' then line[..|line| - 1] else line
  }

  /** Lines end at "\n" or "\r\n"; what follows the last terminator is a line only when
      it is not empty, and keeps a carriage return of its own. */
  function Lines(text: string): seq<string> {
    if text == "" then []
    else
      var end := FirstNewline(text);
      if end == |text| then [text] else [StripReturn(text[..end])] + Lines(text[end + 1..])
  }

  function Terminated(lines: seq<string>): string {
    if lines == [] then "" else lines[0] + "\n" + Terminated(lines[1..])
  }

  function StripAll(lines: seq<string>): (stripped: seq<string>)
    ensures |stripped| == |lines|
  {
    seq(|lines|, i requires 0 <= i < |lines| => StripReturn(lines[i]))
  }

  predicate OneLine(text: string) {
    '\n' !in text
  }

  ghost predicate OneLineEach(lines: seq<string>) {
    forall line | line in lines :: OneLine(line)
  }

  /** The line without the carriage return it ends in, if it ends in one. */
  predicate ReadsAs(line: string, read: string) {
    line == read + (if line != "" && line[|line| - 1] == '\r' then "\r" else "")
  }

  lemma StrippedReads(line: string)
    ensures ReadsAs(line, StripReturn(line))
  {
    if line != "" && line[|line| - 1] == '\r' {
      assert line == line[..|line| - 1] + "\r";
    } else {
      assert line + "" == line;
    }
  }

  /** Terminated lines read back as themselves, less a trailing carriage return. */
  lemma TerminatedLinesReadBack(lines: seq<string>)
    requires OneLineEach(lines)
    ensures Lines(Terminated(lines)) == StripAll(lines)
    ensures |Lines(Terminated(lines))| == |lines|
    ensures forall i :: 0 <= i < |lines| ==> ReadsAs(lines[i], Lines(Terminated(lines))[i])
  {
    TerminatedLinesAreStripped(lines);
    forall i | 0 <= i < |lines| ensures ReadsAs(lines[i], StripAll(lines)[i]) {
      StrippedReads(lines[i]);
    }
  }

  lemma {:induction false} TerminatedLinesAreStripped(lines: seq<string>)
    requires OneLineEach(lines)
    ensures Lines(Terminated(lines)) == StripAll(lines)
  {
    if lines != [] {
      var line, rest := lines[0], Terminated(lines[1..]);
      var text := Terminated(lines);
      assert text == line + "\n" + rest && text[|line|] == '\n';
      assert OneLine(line);
      assert forall j :: 0 <= j < |line| ==> text[j] == line[j] && text[j] != '\n';
      assert FirstNewline(text) == |line|;
      assert text[..|line|] == line && text[|line| + 1..] == rest;
      TerminatedLinesAreStripped(lines[1..]);
      assert StripAll(lines) == [StripReturn(line)] + StripAll(lines[1..]);
    }
  }

  function Join(lines: seq<string>): string {
    if lines == [] then "" else if |lines| == 1 then lines[0] else lines[0] + "\n" + Join(lines[1..])
  }

  // ------------------------------------------------------------------
  // Parsing
  // ------------------------------------------------------------------

  predicate IsHeader(line: string) {
    |line| >= 2 && line[0] == '@' && line[1] == '@'
  }

  predicate Marked(line: string, mark: char) {
    line != "" && line[0] == mark
  }

  /** What one body line adds to the text the hunk looks for. */
  function OldPart(line: string): seq<string> {
    if Marked(line, '-') || Marked(line, ' ') then [line[1..]] else if line == "" then [""] else []
  }

  /** What one body line adds to the text the hunk puts there. */
  function NewPart(line: string): seq<string> {
    if Marked(line, '+') || Marked(line, ' ') then [line[1..]] else if line == "" then [""] else []
  }

  function OldSide(body: seq<string>): seq<string> {
    if body == [] then [] else OldPart(body[0]) + OldSide(body[1..])
  }

  function NewSide(body: seq<string>): seq<string> {
    if body == [] then [] else NewPart(body[0]) + NewSide(body[1..])
  }

  /** How many lines there are before the next hunk header. */
  function BodyLength(lines: seq<string>): (n: nat)
    ensures n <= |lines|
  {
    if lines == [] || IsHeader(lines[0]) then 0 else 1 + BodyLength(lines[1..])
  }

  function Prefixed(blocks: seq<Block>, rest: Result<seq<Block>, EditError>): Result<seq<Block>, EditError> {
    if rest.Failure? then rest else Success(blocks + rest.value)
  }

  /** A hunk with these sides, then the rest; a hunk without any line is refused. */
  function HunkThen(anchors: seq<string>, replacements: seq<string>, rest: Result<seq<Block>, EditError>)
    : Result<seq<Block>, EditError>
  {
    if anchors == [] && replacements == [] then Failure(MalformedEdit)
    else Prefixed([Block(Join(anchors), Join(replacements))], rest)
  }

  function HunksOf(lines: seq<string>): Result<seq<Block>, EditError>
    decreases |lines|
  {
    if lines == [] then Success([])
    else if !IsHeader(lines[0]) then HunksOf(lines[1..])
    else
      var n := BodyLength(lines[1..]);
      var body := lines[1..1 + n];
      HunkThen(OldSide(body), NewSide(body), HunksOf(lines[1 + n..]))
  }

  function ParsedDiff(payload: string): Result<seq<Block>, EditError> {
    var hunks := HunksOf(Lines(payload));
    if hunks == Success([]) then Failure(MalformedEdit) else hunks
  }

  lemma SidesStep(lines: seq<string>, cursor: nat, end: nat)
    requires cursor < end <= |lines|
    ensures OldSide(lines[cursor..end]) == OldPart(lines[cursor]) + OldSide(lines[cursor + 1..end])
    ensures NewSide(lines[cursor..end]) == NewPart(lines[cursor]) + NewSide(lines[cursor + 1..end])
  {
    assert lines[cursor..end][1..] == lines[cursor + 1..end];
  }

  lemma BodyLengthStep(lines: seq<string>, cursor: nat)
    requires cursor < |lines|
    ensures BodyLength(lines[cursor..]) == if IsHeader(lines[cursor]) then 0 else 1 + BodyLength(lines[cursor + 1..])
  {
    assert lines[cursor..][1..] == lines[cursor + 1..];
  }

  lemma Regroup(done: seq<string>, part: seq<string>, rest: seq<string>)
    ensures done + (part + rest) == (done + part) + rest
  {
  }

  /** The body of one hunk, read off a cursor that stops before the next header. */
  method ReadHunkBody(lines: seq<string>, start: nat)
    returns (anchorLines: seq<string>, replacementLines: seq<string>, cursor: nat)
    requires start <= |lines|
    ensures cursor == start + BodyLength(lines[start..]) && cursor <= |lines|
    ensures anchorLines == OldSide(lines[start..cursor]) && replacementLines == NewSide(lines[start..cursor])
  {
    anchorLines, replacementLines, cursor := [], [], start;
    ghost var end := start + BodyLength(lines[start..]);
    ghost var oldSide, newSide := OldSide(lines[start..end]), NewSide(lines[start..end]);
    while cursor < |lines|
      invariant start <= cursor <= end <= |lines| && end == cursor + BodyLength(lines[cursor..])
      invariant oldSide == anchorLines + OldSide(lines[cursor..end])
      invariant newSide == replacementLines + NewSide(lines[cursor..end])
    {
      BodyLengthStep(lines, cursor);
      if IsHeader(lines[cursor]) { break; }
      var body := lines[cursor];
      SidesStep(lines, cursor, end);
      Regroup(anchorLines, OldPart(body), OldSide(lines[cursor + 1..end]));
      Regroup(replacementLines, NewPart(body), NewSide(lines[cursor + 1..end]));
      anchorLines, replacementLines := ReadBodyLine(body, anchorLines, replacementLines);
      cursor := cursor + 1;
    }
    assert cursor == end && lines[cursor..end] == [];
  }

  /** One body line: a removed, an added, a context or a bare empty line; any other is ignored. */
  method ReadBodyLine(body: string, anchorLines: seq<string>, replacementLines: seq<string>)
    returns (anchors: seq<string>, replacements: seq<string>)
    ensures anchors == anchorLines + OldPart(body) && replacements == replacementLines + NewPart(body)
  {
    anchors, replacements := anchorLines, replacementLines;
    if Marked(body, '-') {
      anchors := anchors + [body[1..]];
    } else if Marked(body, '+') {
      replacements := replacements + [body[1..]];
    } else if Marked(body, ' ') {
      anchors, replacements := anchors + [body[1..]], replacements + [body[1..]];
    } else if body == "" {
      anchors, replacements := anchors + [body], replacements + [body];
    }
  }

  lemma PrefixNothing(hunks: Result<seq<Block>, EditError>)
    ensures Prefixed([], hunks) == hunks
  {
    if hunks.Success? { assert [] + hunks.value == hunks.value; }
  }

  lemma PrefixTwice(first: seq<Block>, second: seq<Block>, hunks: Result<seq<Block>, EditError>)
    ensures Prefixed(first, Prefixed(second, hunks)) == Prefixed(first + second, hunks)
  {
    if hunks.Success? { assert first + (second + hunks.value) == (first + second) + hunks.value; }
  }

  /** The same, read from a cursor on. */
  function HunksAt(lines: seq<string>, cursor: nat): Result<seq<Block>, EditError>
    requires cursor <= |lines|
    decreases |lines| - cursor
  {
    if cursor == |lines| then Success([])
    else if !IsHeader(lines[cursor]) then HunksAt(lines, cursor + 1)
    else
      var next := cursor + 1 + BodyLength(lines[cursor + 1..]);
      HunkThen(OldSide(lines[cursor + 1..next]), NewSide(lines[cursor + 1..next]), HunksAt(lines, next))
  }

  lemma {:induction false} HunksAtCursor(lines: seq<string>, cursor: nat)
    requires cursor <= |lines|
    ensures HunksAt(lines, cursor) == HunksOf(lines[cursor..])
    decreases |lines| - cursor
  {
    if cursor == |lines| {
      assert lines[cursor..] == [];
    } else if IsHeader(lines[cursor]) {
      HunksAtCursor(lines, cursor + 1 + BodyLength(lines[cursor + 1..]));
      HeaderAtCursor(lines, cursor);
    } else {
      HunksAtCursor(lines, cursor + 1);
      SkipAtCursor(lines, cursor);
    }
  }

  lemma SkipAtCursor(lines: seq<string>, cursor: nat)
    requires cursor < |lines| && !IsHeader(lines[cursor])
    ensures HunksOf(lines[cursor..]) == HunksOf(lines[cursor + 1..])
  {
    assert lines[cursor..][1..] == lines[cursor + 1..];
  }

  lemma HeaderAtCursor(lines: seq<string>, cursor: nat)
    requires cursor < |lines| && IsHeader(lines[cursor])
    ensures var next := cursor + 1 + BodyLength(lines[cursor + 1..]);
            var body := lines[cursor + 1..next];
            HunksOf(lines[cursor..]) == HunkThen(OldSide(body), NewSide(body), HunksOf(lines[next..]))
  {
    var n := BodyLength(lines[cursor + 1..]);
    assert lines[cursor..][1..] == lines[cursor + 1..];
    assert lines[cursor..][1..1 + n] == lines[cursor + 1..cursor + 1 + n];
    assert lines[cursor..][1 + n..] == lines[cursor + 1 + n..];
  }

  /** The parser as the source runs it: a cursor over the lines, a growing block list. */
  method ParseUnifiedDiffBlocks(payload: string) returns (result: Result<seq<Block>, EditError>)
    ensures result == ParsedDiff(payload)
  {
    var lines := Lines(payload);
    var blocks: seq<Block>, cursor := [], 0;
    ghost var hunks := HunksAt(lines, 0);
    assert lines[0..] == lines;
    HunksAtCursor(lines, 0);
    PrefixNothing(hunks);
    while cursor < |lines|
      invariant cursor <= |lines| && hunks == Prefixed(blocks, HunksAt(lines, cursor))
    {
      var malformed;
      cursor, blocks, malformed := ParseNext(lines, cursor, blocks, hunks);
      if malformed {
        return Failure(MalformedEdit);
      }
    }
    assert blocks + [] == blocks;
    result := if blocks == [] then Failure(MalformedEdit) else Success(blocks);
  }

  /** A line outside hunks is skipped; a header begins a hunk, which becomes a block. */
  method ParseNext(lines: seq<string>, cursor: nat, blocks: seq<Block>, ghost hunks: Result<seq<Block>, EditError>)
    returns (next: nat, blocks': seq<Block>, malformed: bool)
    requires cursor < |lines| && hunks == Prefixed(blocks, HunksAt(lines, cursor))
    ensures cursor < next <= |lines|
    ensures if malformed then hunks == Failure(MalformedEdit) else hunks == Prefixed(blocks', HunksAt(lines, next))
  {
    next, blocks', malformed := cursor + 1, blocks, false;
    if IsHeader(lines[cursor]) {
      var anchorLines, replacementLines;
      anchorLines, replacementLines, next := ReadHunkBody(lines, cursor + 1);
      blocks', malformed := AddHunk(anchorLines, replacementLines, blocks, HunksAt(lines, next));
    }
  }

  method AddHunk(
    anchorLines: seq<string>, replacementLines: seq<string>, blocks: seq<Block>,
    ghost rest: Result<seq<Block>, EditError>)
    returns (blocks': seq<Block>, malformed: bool)
    ensures Prefixed(blocks, HunkThen(anchorLines, replacementLines, rest))
            == if malformed then Failure(MalformedEdit) else Prefixed(blocks', rest)
  {
    blocks', malformed := blocks, true;
    if anchorLines != [] || replacementLines != [] {
      var block := Block(Join(anchorLines), Join(replacementLines));
      PrefixTwice(blocks, [block], rest);
      blocks', malformed := blocks + [block], false;
    }
  }

  // ------------------------------------------------------------------
  // Printing
  // ------------------------------------------------------------------

  datatype HunkLine = Context(text: string) | Removed(text: string) | Added(text: string)

  datatype Hunk = Hunk(header: string, lines: seq<HunkLine>)

  function PrintLine(line: HunkLine): string {
    match line
    case Context(text) => " " + text
    case Removed(text) => "-" + text
    case Added(text) => "+" + text
  }

  function PrintBody(lines: seq<HunkLine>): seq<string> {
    if lines == [] then [] else [PrintLine(lines[0])] + PrintBody(lines[1..])
  }

  function PrintHeader(hunk: Hunk): (line: string)
    ensures IsHeader(line)
  {
    "@@" + hunk.header
  }

  function PrintHunks(hunks: seq<Hunk>): seq<string> {
    if hunks == [] then [] else [PrintHeader(hunks[0])] + (PrintBody(hunks[0].lines) + PrintHunks(hunks[1..]))
  }

  /** A diff: lines that are no header (file names and the like), then the hunks. */
  function Print(preamble: seq<string>, hunks: seq<Hunk>): string {
    Terminated(preamble + PrintHunks(hunks))
  }

  /** The text before the change: context and removed lines. */
  function Before(lines: seq<HunkLine>): seq<string> {
    if lines == [] then []
    else (if lines[0].Added? then [] else [lines[0].text]) + Before(lines[1..])
  }

  /** The text after the change: context and added lines. */
  function After(lines: seq<HunkLine>): seq<string> {
    if lines == [] then []
    else (if lines[0].Removed? then [] else [lines[0].text]) + After(lines[1..])
  }

  function BlockOf(hunk: Hunk): Block {
    Block(Join(Before(hunk.lines)), Join(After(hunk.lines)))
  }

  function BlocksOf(hunks: seq<Hunk>): (blocks: seq<Block>)
    ensures |blocks| == |hunks|
  {
    seq(|hunks|, i requires 0 <= i < |hunks| => BlockOf(hunks[i]))
  }

  /** Texts a line-based format can carry: no line break inside, no carriage return at the end. */
  predicate Printable(text: string) {
    OneLine(text) && StripReturn(text) == text
  }

  ghost predicate WellFormed(preamble: seq<string>, hunks: seq<Hunk>) {
    && (forall line | line in preamble :: Printable(line) && !IsHeader(line))
    && (forall hunk | hunk in hunks ::
          Printable(hunk.header) && forall line | line in hunk.lines :: Printable(line.text))
  }

  ghost predicate NoneEmpty(hunks: seq<Hunk>) {
    forall hunk | hunk in hunks :: hunk.lines != []
  }

  // ------------------------------------------------------------------
  // Round trip
  // ------------------------------------------------------------------

  lemma PrintLineIsBody(line: HunkLine)
    ensures !IsHeader(PrintLine(line))
    ensures OldPart(PrintLine(line)) == if line.Added? then [] else [line.text]
    ensures NewPart(PrintLine(line)) == if line.Removed? then [] else [line.text]
  {
    var printed := PrintLine(line);
    assert printed[0] == (if line.Context? then ' ' else if line.Removed? then '-' else '+')
           && printed[1..] == line.text;
  }

  lemma PrefixedLinePrintable(prefix: string, text: string)
    requires prefix != "" && Printable(prefix) && Printable(text)
    ensures Printable(prefix + text)
  {
    if text == "" { assert prefix + text == prefix; }
  }

  lemma ConsTail(first: string, rest: seq<string>)
    ensures ([first] + rest)[0] == first && ([first] + rest)[1..] == rest
  {
  }

  lemma {:induction false} PrintedBodySides(lines: seq<HunkLine>)
    ensures OldSide(PrintBody(lines)) == Before(lines) && NewSide(PrintBody(lines)) == After(lines)
    ensures lines != [] ==> Before(lines) != [] || After(lines) != []
  {
    if lines != [] {
      PrintLineIsBody(lines[0]);
      PrintedBodySides(lines[1..]);
      assert PrintBody(lines)[1..] == PrintBody(lines[1..]);
    }
  }

  lemma {:induction false} PrintedBodyEnds(lines: seq<HunkLine>, rest: seq<string>)
    requires rest == [] || IsHeader(rest[0])
    ensures BodyLength(PrintBody(lines) + rest) == |PrintBody(lines)|
  {
    if lines == [] {
      assert PrintBody(lines) + rest == rest;
    } else {
      var printed := PrintBody(lines) + rest;
      assert printed == [PrintLine(lines[0])] + (PrintBody(lines[1..]) + rest);
      ConsTail(PrintLine(lines[0]), PrintBody(lines[1..]) + rest);
      PrintLineIsBody(lines[0]);
      PrintedBodyEnds(lines[1..], rest);
    }
  }

  lemma HunkAndRest(lines: seq<string>, body: seq<string>, rest: seq<string>)
    requires lines != [] && IsHeader(lines[0]) && lines[1..] == body + rest && BodyLength(body + rest) == |body|
    ensures HunksOf(lines)
            == if OldSide(body) == [] && NewSide(body) == [] then Failure(MalformedEdit)
               else Prefixed([Block(Join(OldSide(body)), Join(NewSide(body)))], HunksOf(rest))
  {
    assert lines[1..1 + |body|] == body && lines[1 + |body|..] == rest;
  }

  lemma FirstHunkParses(lines: seq<string>, body: seq<HunkLine>, rest: seq<string>)
    requires rest == [] || IsHeader(rest[0])
    requires lines != [] && IsHeader(lines[0]) && lines[1..] == PrintBody(body) + rest
    ensures HunksOf(lines)
            == if body == [] then Failure(MalformedEdit)
               else Prefixed([Block(Join(Before(body)), Join(After(body)))], HunksOf(rest))
  {
    PrintedBodyEnds(body, rest);
    PrintedBodySides(body);
    HunkAndRest(lines, PrintBody(body), rest);
  }

  lemma PrintedHunksUnfold(hunks: seq<Hunk>)
    requires hunks != []
    ensures var lines := PrintHunks(hunks);
            && lines != [] && IsHeader(lines[0])
            && lines[1..] == PrintBody(hunks[0].lines) + PrintHunks(hunks[1..])
  {
    ConsTail(PrintHeader(hunks[0]), PrintBody(hunks[0].lines) + PrintHunks(hunks[1..]));
  }

  lemma HunksUnfold(hunks: seq<Hunk>)
    requires hunks != []
    ensures NoneEmpty(hunks) <==> hunks[0].lines != [] && NoneEmpty(hunks[1..])
    ensures BlocksOf(hunks) == [BlockOf(hunks[0])] + BlocksOf(hunks[1..])
  {
    assert hunks == [hunks[0]] + hunks[1..];
  }

  lemma {:induction false} PrintedHunksParse(hunks: seq<Hunk>)
    ensures HunksOf(PrintHunks(hunks)) == if NoneEmpty(hunks) then Success(BlocksOf(hunks)) else Failure(MalformedEdit)
    decreases |hunks|
  {
    if hunks != [] {
      var rest := hunks[1..];
      PrintedHunksParse(rest);
      PrintedHunksUnfold(hunks);
      if rest != [] { PrintedHunksUnfold(rest); }
      FirstHunkParses(PrintHunks(hunks), hunks[0].lines, PrintHunks(rest));
      HunksUnfold(hunks);
    }
  }

  lemma {:induction false} PreambleIsSkipped(preamble: seq<string>, rest: seq<string>)
    requires forall line | line in preamble :: !IsHeader(line)
    ensures HunksOf(preamble + rest) == HunksOf(rest)
  {
    if preamble == [] {
      assert preamble + rest == rest;
    } else {
      assert (preamble + rest)[1..] == preamble[1..] + rest;
      PreambleIsSkipped(preamble[1..], rest);
    }
  }

  lemma {:induction false} PrintedBodyPrintable(lines: seq<HunkLine>)
    requires forall line | line in lines :: Printable(line.text)
    ensures forall text | text in PrintBody(lines) :: Printable(text)
  {
    if lines != [] {
      PrefixedLinePrintable(" ", lines[0].text);
      PrefixedLinePrintable("-", lines[0].text);
      PrefixedLinePrintable("+", lines[0].text);
      PrintedBodyPrintable(lines[1..]);
    }
  }

  lemma {:induction false} PrintedHunksPrintable(hunks: seq<Hunk>)
    requires WellFormed([], hunks)
    ensures forall text | text in PrintHunks(hunks) :: Printable(text)
  {
    if hunks != [] {
      PrefixedLinePrintable("@@", hunks[0].header);
      PrintedBodyPrintable(hunks[0].lines);
      PrintedHunksPrintable(hunks[1..]);
    }
  }

  /** Printing any hunks and parsing them back gives each hunk's text before as anchor and
      its text after as replacement; a diff is refused exactly when it has no hunk or an
      empty one. */
  lemma DiffRoundTrip(preamble: seq<string>, hunks: seq<Hunk>)
    requires WellFormed(preamble, hunks)
    ensures ParsedDiff(Print(preamble, hunks))
            == if hunks != [] && NoneEmpty(hunks) then Success(BlocksOf(hunks)) else Failure(MalformedEdit)
  {
    var lines := preamble + PrintHunks(hunks);
    PrintedHunksPrintable(hunks);
    forall line | line in lines ensures OneLine(line) && StripReturn(line) == line {
      assert Printable(line);
    }
    TerminatedLinesReadBack(lines);
    assert StripAll(lines) == lines;
    PreambleIsSkipped(preamble, PrintHunks(hunks));
    PrintedHunksParse(hunks);
  }

  /** The parts of a text between line feeds. */
  function Pieces(text: string): seq<string> {
    var end := FirstNewline(text);
    if end == |text| then [text] else [text[..end]] + Pieces(text[end + 1..])
  }

  lemma FirstPiece(line: string, rest: string)
    requires OneLine(line)
    ensures FirstNewline(line + "\n" + rest) == |line|
    ensures Pieces(line + "\n" + rest) == [line] + Pieces(rest)
  {
    var text := line + "\n" + rest;
    assert text[|line|] == '\n' && forall j :: 0 <= j < |line| ==> text[j] == line[j];
    assert FirstNewline(text) == |line|;
    assert text[..|line|] == line && text[|line| + 1..] == rest;
  }

  /** Joined lines come apart into the lines. */
  lemma {:induction false} JoinComesApart(lines: seq<string>)
    requires lines != [] && OneLineEach(lines)
    ensures Pieces(Join(lines)) == lines
  {
    assert lines[0] in lines;
    if |lines| == 1 {
      assert FirstNewline(lines[0]) == |lines[0]|;
    } else {
      JoinComesApart(lines[1..]);
      FirstPiece(lines[0], Join(lines[1..]));
    }
  }

  /** Line by line, the anchor of a hunk is its context and removed lines, and the replacement its
      context and added ones. */
  lemma BlocksAreTheSides(hunk: Hunk)
    requires forall line | line in hunk.lines :: OneLine(line.text)
    ensures var block := BlockOf(hunk);
            && (if Before(hunk.lines) == [] then block.search == "" else Pieces(block.search) == Before(hunk.lines))
            && (if After(hunk.lines) == [] then block.replace == "" else Pieces(block.replace) == After(hunk.lines))
  {
    SidesAreOneLine(hunk.lines);
    if Before(hunk.lines) != [] {
      JoinComesApart(Before(hunk.lines));
    }
    if After(hunk.lines) != [] {
      JoinComesApart(After(hunk.lines));
    }
  }

  lemma {:induction false} SidesAreOneLine(lines: seq<HunkLine>)
    requires forall line | line in lines :: OneLine(line.text)
    ensures OneLineEach(Before(lines)) && OneLineEach(After(lines))
  {
    if lines != [] {
      SidesAreOneLine(lines[1..]);
      assert lines[0] in lines;
    }
  }

  // ------------------------------------------------------------------
  // Resolving an edit
  // ------------------------------------------------------------------

  datatype EditForm = WholeFile | SearchReplace | UnifiedDiffForm

  datatype PayloadItem = PayloadItem(search: Option<string>, replace: Option<string>)

  /** What JSON parsing makes of a search/replace payload. */
  datatype ParsedPayload = NotJson | NotArray | Items(items: seq<PayloadItem>)

  function BlocksOfItems(items: seq<PayloadItem>): Result<seq<Block>, EditError> {
    if items == [] then Success([])
    else if items[0].search.None? || items[0].replace.None? then Failure(MalformedEdit)
    else Prefixed([Block(items[0].search.value, items[0].replace.value)], BlocksOfItems(items[1..]))
  }

  function ParsedItems(payload: ParsedPayload): Result<seq<Block>, EditError> {
    if payload.Items? && payload.items != [] then BlocksOfItems(payload.items) else Failure(MalformedEdit)
  }

  function AppliedWhenParsed(current: Option<string>, blocks: Result<seq<Block>, EditError>)
    : Result<AppliedEdit, EditError>
  {
    match blocks
    case Failure(error) => Failure(error)
    case Success(list) => Applied(if current.Some? then current.value else "", list)
  }

  function Resolve(current: Option<string>, form: EditForm, payload: string, parse: string -> ParsedPayload)
    : Result<AppliedEdit, EditError>
  {
    match form
    case WholeFile => Success(AppliedEdit(payload, false))
    case SearchReplace => AppliedWhenParsed(current, ParsedItems(parse(payload)))
    case UnifiedDiffForm => AppliedWhenParsed(current, ParsedDiff(payload))
  }

  function ItemsOf(blocks: seq<Block>): (items: seq<PayloadItem>)
    ensures |items| == |blocks|
  {
    seq(|blocks|, i requires 0 <= i < |blocks| => PayloadItem(Some(blocks[i].search), Some(blocks[i].replace)))
  }

  lemma {:induction false} ItemsReadBack(blocks: seq<Block>)
    ensures BlocksOfItems(ItemsOf(blocks)) == Success(blocks)
  {
    if blocks != [] {
      assert ItemsOf(blocks)[1..] == ItemsOf(blocks[1..]);
      ItemsReadBack(blocks[1..]);
      assert [Block(blocks[0].search, blocks[0].replace)] + blocks[1..] == blocks;
    }
  }

  /** Items are refused exactly when one of them lacks a text. */
  lemma {:induction false} ItemsRefusedExactly(items: seq<PayloadItem>)
    ensures BlocksOfItems(items).Failure?
            <==> exists i :: 0 <= i < |items| && (items[i].search.None? || items[i].replace.None?)
    ensures BlocksOfItems(items).Success? ==> ItemsOf(BlocksOfItems(items).value) == items
  {
    if items != [] {
      ItemsRefusedExactly(items[1..]);
      if i :| 0 <= i < |items[1..]| && (items[1..][i].search.None? || items[1..][i].replace.None?) {
        assert items[i + 1] == items[1..][i];
      }
      if BlocksOfItems(items).Success? {
        var rest := BlocksOfItems(items[1..]).value;
        assert ItemsOf(BlocksOfItems(items).value) == [items[0]] + ItemsOf(rest);
      }
    }
  }

  /** A whole file is taken as it is and never for a replay; a payload that does not parse is
      refused, and one that does is applied to the file, empty if it does not exist. */
  lemma FormsResolve(current: Option<string>, payload: string, parse: string -> ParsedPayload)
    ensures Resolve(current, WholeFile, payload, parse) == Success(AppliedEdit(payload, false))
    ensures Resolve(None, UnifiedDiffForm, payload, parse) == Resolve(Some(""), UnifiedDiffForm, payload, parse)
    ensures Resolve(None, SearchReplace, payload, parse) == Resolve(Some(""), SearchReplace, payload, parse)
    ensures (parse(payload).Items? ==> parse(payload).items == []) ==>
              Resolve(current, SearchReplace, payload, parse) == Failure(MalformedEdit)
  {
  }

  /** A printed diff resolves to what its blocks do when applied, and to what the same
      blocks sent as search/replace items resolve to. */
  lemma FormsAgree(
    current: Option<string>, preamble: seq<string>, hunks: seq<Hunk>, items: string, parse: string -> ParsedPayload)
    requires WellFormed(preamble, hunks) && hunks != [] && NoneEmpty(hunks)
    requires parse(items) == Items(ItemsOf(BlocksOf(hunks)))
    ensures var asDiff := Resolve(current, UnifiedDiffForm, Print(preamble, hunks), parse);
            && asDiff == Applied(if current.Some? then current.value else "", BlocksOf(hunks))
            && asDiff == Resolve(current, SearchReplace, items, parse)
  {
    DiffRoundTrip(preamble, hunks);
    ItemsReadBack(BlocksOf(hunks));
  }

  /** A hunk whose old text stands at one place, and nowhere else even overlapping it,
      replaces it there and changes nothing around it. */
  lemma HunkLandsOnItsOldText(p: string, s: string, preamble: seq<string>, hunk: Hunk, parse: string -> ParsedPayload)
    requires WellFormed(preamble, [hunk]) && BlockOf(hunk).search != ""
    requires forall j: nat :: OccursAt(p + BlockOf(hunk).search + s, j, BlockOf(hunk).search) ==> j == |p|
    ensures Resolve(Some(p + BlockOf(hunk).search + s), UnifiedDiffForm, Print(preamble, [hunk]), parse)
            == Success(AppliedEdit(p + BlockOf(hunk).replace + s, false))
  {
    var block := BlockOf(hunk);
    var text := p + block.search + s;
    assert hunk.lines != [];
    DiffRoundTrip(preamble, [hunk]);
    assert BlocksOf([hunk]) == [block];
    UniqueOccurrenceIsFound(p, block.search, s);
    OneBlockApplies(text, block);
  }

  lemma UniqueOccurrenceIsFound(p: string, needle: string, s: string)
    requires needle != ""
    requires forall j: nat :: OccursAt(p + needle + s, j, needle) ==> j == |p|
    ensures Matches(p + needle + s, needle) == 1
    ensures forall replacement :: ReplaceFirst(p + needle + s, needle, replacement) == p + replacement + s
  {
    var text := p + needle + s;
    assert text[|p|..|p| + |needle|] == needle;
    assert OccursAt(text, |p|, needle);
    assert Find(text, needle) == Some(|p|);
    assert text[|p| + |needle|..] == s && text[..|p|] == p;
    forall j: nat ensures !OccursAt(s, j, needle) {
      OccursBehind(p + needle, s, j, needle);
    }
    NoMatchesMeansNoOccurrence(s, needle);
  }
}
