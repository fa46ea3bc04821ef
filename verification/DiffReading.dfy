/** What the parser of unified diffs passes over, and what it refuses
    (crates/familiar-ai-agent/src/token_discipline.rs, lines 109-151). */
module DiffReading {
  import opened Wrappers
  import opened TargetedEdit
  import opened UnifiedDiff

  // ------------------------------------------------------------------
  // What the parser passes over, and what it refuses
  // ------------------------------------------------------------------

  /** A line that is no header, is not empty and has no mark. */
  predicate PassedOver(line: string) {
    line != "" && !IsHeader(line) && line[0] != '-' && line[0] != '+' && line[0] != ' '
  }

  /** The lines without those passed over, and bare empty ones as empty context. */
  function Cleaned(lines: seq<string>): seq<string> {
    if lines == [] then []
    else if PassedOver(lines[0]) then Cleaned(lines[1..])
    else [if lines[0] == "" then " " else lines[0]] + Cleaned(lines[1..])
  }

  lemma {:induction false} CleanedAppend(a: seq<string>, b: seq<string>)
    ensures Cleaned(a + b) == Cleaned(a) + Cleaned(b)
  {
    if a == [] {
      assert a + b == b;
    } else {
      assert (a + b)[0] == a[0] && (a + b)[1..] == a[1..] + b;
      CleanedAppend(a[1..], b);
      assert !PassedOver(a[0]) ==> Cleaned(a + b) == Cleaned(a) + Cleaned(b);
    }
  }

  lemma {:induction false} CleaningKeepsSides(body: seq<string>)
    ensures OldSide(Cleaned(body)) == OldSide(body) && NewSide(Cleaned(body)) == NewSide(body)
  {
    if body != [] {
      CleaningKeepsSides(body[1..]);
      if PassedOver(body[0]) {
        assert OldPart(body[0]) == [] == NewPart(body[0]);
        assert [] + OldSide(body[1..]) == OldSide(body[1..]) && [] + NewSide(body[1..]) == NewSide(body[1..]);
      } else {
        var line := if body[0] == "" then " " else body[0];
        assert Cleaned(body)[0] == line && Cleaned(body)[1..] == Cleaned(body[1..]);
        assert " "[1..] == "";
      }
    }
  }

  lemma {:induction false} CleaningKeepsBodies(lines: seq<string>)
    ensures var n := BodyLength(lines);
            BodyLength(Cleaned(lines)) == |Cleaned(lines[..n])|
            && Cleaned(lines) == Cleaned(lines[..n]) + Cleaned(lines[n..])
  {
    var n := BodyLength(lines);
    assert lines == lines[..n] + lines[n..];
    CleanedAppend(lines[..n], lines[n..]);
    if lines != [] && !IsHeader(lines[0]) {
      CleaningKeepsBodies(lines[1..]);
      assert lines[..n][1..] == lines[1..][..n - 1];
      if !PassedOver(lines[0]) {
        assert Cleaned(lines)[1..] == Cleaned(lines[1..]);
      }
    } else if lines != [] {
      assert lines[..0] == [] && Cleaned(lines)[0] == lines[0];
    }
  }

  lemma HeadersStartSo(line: string)
    ensures IsHeader(line) <==> "@@" <= line
    ensures PassedOver(line) <==> line != "" && !("@@" <= line) && line[0] !in {'-', '+', ' '}
  {
  }

  /** Lines without a mark change nothing, and a bare empty line reads as empty context. */
  lemma {:induction false} UnmarkedLinesArePassedOver(lines: seq<string>)
    ensures HunksOf(Cleaned(lines)) == HunksOf(lines)
    decreases |lines|
  {
    if lines == [] {
    } else if IsHeader(lines[0]) {
      var n := BodyLength(lines[1..]);
      UnmarkedLinesArePassedOver(lines[1..][n..]);
      CleanedHunk(lines, lines[1..][..n], lines[1..][n..]);
    } else {
      UnmarkedLinesArePassedOver(lines[1..]);
      SkippedLine(lines);
    }
  }

  lemma SkippedLine(lines: seq<string>)
    requires lines != [] && !IsHeader(lines[0])
    ensures HunksOf(lines) == HunksOf(lines[1..]) && HunksOf(Cleaned(lines)) == HunksOf(Cleaned(lines[1..]))
  {
    if !PassedOver(lines[0]) {
      assert Cleaned(lines)[1..] == Cleaned(lines[1..]);
      assert !IsHeader(Cleaned(lines)[0]);
    }
  }

  lemma CleanedHunk(lines: seq<string>, body: seq<string>, rest: seq<string>)
    requires lines != [] && IsHeader(lines[0])
    requires body == lines[1..][..BodyLength(lines[1..])] && rest == lines[1..][BodyLength(lines[1..])..]
    requires HunksOf(Cleaned(rest)) == HunksOf(rest)
    ensures HunksOf(Cleaned(lines)) == HunksOf(lines)
  {
    var tail := lines[1..];
    assert tail == body + rest;
    HunkUnfolds(lines, body, rest);
    CleaningKeepsSides(body);
    CleaningKeepsBodies(tail);
    CleanedStarts(lines, body, rest);
    HunkUnfolds(Cleaned(lines), Cleaned(body), Cleaned(rest));
  }

  lemma CleanedStarts(lines: seq<string>, body: seq<string>, rest: seq<string>)
    requires lines != [] && IsHeader(lines[0]) && Cleaned(lines[1..]) == Cleaned(body) + Cleaned(rest)
    ensures var clean := Cleaned(lines);
            clean != [] && clean[0] == lines[0] && clean[1..] == Cleaned(body) + Cleaned(rest)
  {
    assert Cleaned(lines) == [lines[0]] + Cleaned(lines[1..]);
  }

  lemma HunkUnfolds(lines: seq<string>, body: seq<string>, rest: seq<string>)
    requires lines != [] && IsHeader(lines[0]) && lines[1..] == body + rest && |body| == BodyLength(lines[1..])
    ensures HunksOf(lines) == HunkThen(OldSide(body), NewSide(body), HunksOf(rest))
  {
    assert lines[1..1 + |body|] == body && lines[1 + |body|..] == rest;
  }

  /** A header whose hunk has no line on either side. */
  predicate EmptyHunkAt(lines: seq<string>, i: nat) {
    && i < |lines| && IsHeader(lines[i])
    && var body := lines[i + 1..i + 1 + BodyLength(lines[i + 1..])];
    OldSide(body) == [] && NewSide(body) == []
  }

  lemma {:induction false} NoHeaderInside(lines: seq<string>, i: nat)
    requires i < BodyLength(lines)
    ensures !IsHeader(lines[i])
  {
    if i > 0 {
      NoHeaderInside(lines[1..], i - 1);
    }
  }

  lemma EmptyHunkBehind(lines: seq<string>, taken: nat, i: nat)
    requires taken <= i
    ensures EmptyHunkAt(lines, i) <==> taken <= |lines| && EmptyHunkAt(lines[taken..], i - taken)
  {
    if i < |lines| {
      assert lines[taken..][i - taken..][1..] == lines[i + 1..];
      assert lines[taken..][i - taken + 1..] == lines[i + 1..];
      var n := BodyLength(lines[i + 1..]);
      assert lines[taken..][i - taken + 1..i - taken + 1 + n] == lines[i + 1..i + 1 + n];
    }
  }

  lemma FirstHunk(lines: seq<string>)
    requires lines != []
    ensures var taken := if IsHeader(lines[0]) then 1 + BodyLength(lines[1..]) else 1;
            && (HunksOf(lines).Failure? <==> EmptyHunkAt(lines, 0) || HunksOf(lines[taken..]).Failure?)
            && (HunksOf(lines) == Success([]) <==> !IsHeader(lines[0]) && HunksOf(lines[taken..]) == Success([]))
  {
    if IsHeader(lines[0]) {
      var n := BodyLength(lines[1..]);
      assert lines[1..] == lines[1..1 + n] + lines[1 + n..];
      HunkUnfolds(lines, lines[1..1 + n], lines[1 + n..]);
      assert EmptyHunkAt(lines, 0) <==> OldSide(lines[1..1 + n]) == [] && NewSide(lines[1..1 + n]) == [];
    }
  }

  /** Reading hunks is refused exactly when one of them is empty, and finds none exactly when
      there is no header. */
  lemma {:induction false} HunksRefusedExactly(lines: seq<string>)
    ensures HunksOf(lines).Failure? <==> exists i: nat :: EmptyHunkAt(lines, i)
    ensures HunksOf(lines) == Success([]) <==> forall i :: 0 <= i < |lines| ==> !("@@" <= lines[i])
    decreases |lines|
  {
    if lines != [] {
      var taken := if IsHeader(lines[0]) then 1 + BodyLength(lines[1..]) else 1;
      HunksRefusedExactly(lines[taken..]);
      forall i: nat | taken <= i ensures EmptyHunkAt(lines, i) <==> EmptyHunkAt(lines[taken..], i - taken) {
        EmptyHunkBehind(lines, taken, i);
      }
      forall i | 0 < i < taken ensures !IsHeader(lines[i]) {
        NoHeaderInside(lines[1..], i - 1);
      }
      if j: nat :| EmptyHunkAt(lines[taken..], j) {
        EmptyHunkBehind(lines, taken, taken + j);
        assert EmptyHunkAt(lines, taken + j);
      }
      if i: nat :| EmptyHunkAt(lines, i) {
        if i >= taken {
          assert EmptyHunkAt(lines[taken..], i - taken);
        } else {
          assert i == 0;
        }
      }
      FirstHunk(lines);
      forall i | 0 <= i < |lines| ensures IsHeader(lines[i]) <==> "@@" <= lines[i] {
        HeadersStartSo(lines[i]);
      }
    }
  }
}
