/** The native run-length transform for request bodies
    (crates/familiar-ai-compress/src/lib.rs, lines 115-192). */
module RunLengthCodec {
  import opened Wrappers

  newtype byte = b: int | 0 <= b < 256

  /** "FAIC" and a version byte. */
  const HEADER: seq<byte> := [0x46, 0x41, 0x49, 0x43, 0x01]

  datatype Block = Repeat(count: nat, value: byte) | Literal(bytes: seq<byte>)

  /** A block whose length fits the seven bits of its tag. */
  predicate Fits(block: Block) {
    match block
    case Repeat(count, _) => 1 <= count <= 128
    case Literal(bytes) => 1 <= |bytes| <= 128
  }

  function Copies(value: byte, count: nat): (bytes: seq<byte>)
    ensures |bytes| == count && forall i :: 0 <= i < count ==> bytes[i] == value
  {
    seq(count, _ => value)
  }

  function Expand(block: Block): seq<byte> {
    match block
    case Repeat(count, value) => Copies(value, count)
    case Literal(bytes) => bytes
  }

  /** A tag's high bit tells a repeat from a literal, its other seven bits the length less one. */
  predicate IsRepeat(tag: byte) {
    tag >= 128
  }

  function LengthOf(tag: byte): (length: nat)
    ensures 1 <= length <= 128
  {
    tag as int % 128 + 1
  }

  function RepeatTag(count: nat): (tag: byte)
    requires 1 <= count <= 128
    ensures IsRepeat(tag) && LengthOf(tag) == count
  {
    (128 + (count - 1)) as byte
  }

  function LiteralTag(length: nat): (tag: byte)
    requires 1 <= length <= 128
    ensures !IsRepeat(tag) && LengthOf(tag) == length
  {
    (length - 1) as byte
  }

  lemma TagsAreTheirLengths(tag: byte)
    ensures tag == if IsRepeat(tag) then RepeatTag(LengthOf(tag)) else LiteralTag(LengthOf(tag))
  {
  }

  /** A tag with its high bit set repeats the byte after it; any other introduces that
      many bytes verbatim. */
  function Render(block: Block): seq<byte>
    requires Fits(block)
  {
    match block
    case Repeat(count, value) => [RepeatTag(count), value]
    case Literal(bytes) => [LiteralTag(|bytes|)] + bytes
  }

  ghost predicate AllFit(blocks: seq<Block>) {
    forall block | block in blocks :: Fits(block)
  }

  function ExpandAll(blocks: seq<Block>): seq<byte> {
    if blocks == [] then [] else Expand(blocks[0]) + ExpandAll(blocks[1..])
  }

  function RenderAll(blocks: seq<Block>): seq<byte>
    requires forall block | block in blocks :: Fits(block)
  {
    if blocks == [] then [] else Render(blocks[0]) + RenderAll(blocks[1..])
  }

  // ------------------------------------------------------------------
  // The greedy choice
  // ------------------------------------------------------------------

  /** How many bytes equal to the first the input starts with, counting up to `cap`. */
  function Run(s: seq<byte>, cap: nat): (run: nat)
    requires s != [] && cap >= 1
    ensures 1 <= run <= |s| && run <= cap && forall i :: 0 <= i < run ==> s[i] == s[0]
    ensures run < |s| && run < cap ==> s[run] != s[0]
  {
    if |s| > 1 && s[1] == s[0] && cap > 1 then
      var rest := Run(s[1..], cap - 1);
      assert forall i :: 1 <= i < 1 + rest ==> s[i] == s[1..][i - 1];
      assert 1 + rest < |s| ==> s[1 + rest] == s[1..][rest];
      1 + rest
    else 1
  }

  /** Where a literal that has taken `taken` bytes ends: at the next run of three, at
      128 bytes, or where the next pair would not fit. */
  function LiteralEnd(s: seq<byte>, taken: nat): (end: nat)
    requires taken <= |s| && taken <= 128
    ensures taken <= end <= |s| && end <= 128
    decreases |s| - taken
  {
    if taken == |s| || taken == 128 then taken
    else
      var next := Run(s[taken..], 3);
      if next >= 3 || taken + next > 128 then taken else LiteralEnd(s, taken + next)
  }

  /** The block the encoder emits for the input in front of it. */
  function NextBlock(s: seq<byte>): (block: Block)
    requires s != []
    ensures Fits(block) && |Expand(block)| <= |s| && s[..|Expand(block)|] == Expand(block)
  {
    var run := Run(s, 128);
    if run >= 3 then Repeat(run, s[0]) else Literal(s[..LiteralEnd(s, run)])
  }

  function Blocks(s: seq<byte>): (blocks: seq<Block>)
    ensures forall block | block in blocks :: Fits(block)
  {
    if s == [] then [] else [NextBlock(s)] + Blocks(s[|Expand(NextBlock(s))|..])
  }

  lemma BlocksStep(s: seq<byte>)
    requires s != []
    ensures var tail := s[|Expand(NextBlock(s))|..];
            RenderAll(Blocks(s)) == Render(NextBlock(s)) + RenderAll(Blocks(tail)) && |tail| < |s|
  {
    assert Blocks(s)[1..] == Blocks(s[|Expand(NextBlock(s))|..]);
  }

  function Compressed(input: seq<byte>): seq<byte> {
    HEADER + RenderAll(Blocks(input))
  }

  /** A compressed body starts with its four letters and the version, and no other body decodes. */
  lemma BodiesCarryTheHeader(bytes: seq<byte>)
    ensures var out := Compressed(bytes);
            |out| >= 5 && (forall i :: 0 <= i < 4 ==> out[i] as int == "FAIC"[i] as int) && out[4] == 1
    ensures Decompressed(bytes).Some? ==>
              |bytes| >= 5 && (forall i :: 0 <= i < 4 ==> bytes[i] as int == "FAIC"[i] as int) && bytes[4] == 1
  {
    forall i | 0 <= i < 4 ensures HEADER[i] as int == "FAIC"[i] as int {
      assert i == 0 || i == 1 || i == 2 || i == 3;
    }
  }

  /** One pass of the encoder's outer loop: the bytes of the block at `index`. */
  method EmitBlock(input: seq<byte>, index: nat) returns (bytes: seq<byte>, next: nat)
    requires index < |input|
    ensures bytes == Render(NextBlock(input[index..]))
    ensures next == index + |Expand(NextBlock(input[index..]))|
  {
    ghost var rest := input[index..];
    var run := CountRun(input, index, 128);
    if run >= 3 {
      bytes, next := [RepeatTag(run), input[index]], index + run;
      RenderedRepeat(rest, run);
    } else {
      next := ScanLiteral(input, index, run);
      bytes := [LiteralTag(next - index)] + input[index..next];
      assert input[index..next] == rest[..next - index];
      RenderedLiteral(rest, run);
    }
  }

  lemma RenderedRepeat(s: seq<byte>, run: nat)
    requires s != [] && run == Run(s, 128) && run >= 3
    ensures Render(NextBlock(s)) == [RepeatTag(run), s[0]] && |Expand(NextBlock(s))| == run
  {
  }

  lemma RenderedLiteral(s: seq<byte>, run: nat)
    requires s != [] && run == Run(s, 128) && run < 3
    ensures var end := LiteralEnd(s, run);
            end >= 1 && Render(NextBlock(s)) == [LiteralTag(end)] + s[..end] && |Expand(NextBlock(s))| == end
  {
  }

  lemma CompressedStep(s: seq<byte>, out: seq<byte>)
    requires s != []
    ensures var tail := s[|Expand(NextBlock(s))|..];
            out + RenderAll(Blocks(s)) == out + Render(NextBlock(s)) + RenderAll(Blocks(tail))
  {
    BlocksStep(s);
  }

  /** The encoder as the source runs it: nested scans over an index. */
  method Compress(input: seq<byte>) returns (out: seq<byte>)
    ensures out == Compressed(input)
  {
    out := HEADER;
    var index := 0;
    while index < |input|
      invariant index <= |input|
      invariant Compressed(input) == out + RenderAll(Blocks(input[index..]))
    {
      ghost var rest := input[index..];
      CompressedStep(rest, out);
      var bytes, next := EmitBlock(input, index);
      assert rest[|Expand(NextBlock(rest))|..] == input[next..];
      out, index := out + bytes, next;
    }
  }

  /** The inner scan for a run. */
  method CountRun(input: seq<byte>, index: nat, cap: nat) returns (run: nat)
    requires index < |input| && cap >= 1
    ensures run == Run(input[index..], cap)
  {
    run := 1;
    while index + run < |input| && input[index + run] == input[index] && run < cap
      invariant 1 <= run <= cap && index + run <= |input|
      invariant forall i :: index <= i < index + run ==> input[i] == input[index]
    {
      run := run + 1;
    }
    RunIsUnique(input[index..], cap, run);
  }

  lemma RunIsUnique(s: seq<byte>, cap: nat, run: nat)
    requires s != [] && 1 <= run <= cap && run <= |s|
    requires forall i :: 0 <= i < run ==> s[i] == s[0]
    requires run < |s| && run < cap ==> s[run] != s[0]
    ensures run == Run(s, cap)
  {
  }

  /** A literal ends where it stands, or goes on past the next run. */
  lemma LiteralEndStep(s: seq<byte>, taken: nat, next: nat)
    requires taken < |s| && taken < 128 && next == Run(s[taken..], 3)
    ensures next >= 3 || taken + next > 128 ==> LiteralEnd(s, taken) == taken
    ensures next < 3 && taken + next <= 128 ==> LiteralEnd(s, taken) == LiteralEnd(s, taken + next)
  {
  }

  lemma LiteralEndsAtLimits(s: seq<byte>, taken: nat)
    requires taken <= |s| && taken <= 128
    ensures taken == |s| || taken == 128 ==> LiteralEnd(s, taken) == taken
  {
  }

  /** The same for an index into the whole input. */
  lemma ScanStep(input: seq<byte>, s: seq<byte>, start: nat, index: nat, next: nat)
    requires start <= index < |input| && s == input[start..] && index - start < 128 && next == Run(input[index..], 3)
    ensures next >= 3 || index + next - start > 128 ==> LiteralEnd(s, index - start) == index - start
    ensures next < 3 && index + next - start <= 128 ==>
              LiteralEnd(s, index - start) == LiteralEnd(s, index + next - start)
  {
    var taken := index - start;
    SliceOfSlice(input, start, index);
    assert s[taken..] == input[index..] && taken < |s|;
    LiteralEndStep(s, taken, next);
    assert taken + next == index + next - start;
  }

  lemma SliceOfSlice<T>(all: seq<T>, start: nat, index: nat)
    requires start <= index <= |all|
    ensures all[start..][index - start..] == all[index..]
  {
  }

  /** The inner scan for the end of a literal. */
  method ScanLiteral(input: seq<byte>, start: nat, run: nat) returns (index: nat)
    requires start + run <= |input| && run <= 128
    ensures index == start + LiteralEnd(input[start..], run) && start + run <= index <= |input|
  {
    index := start + run;
    ghost var s := input[start..];
    ghost var end := LiteralEnd(s, run);
    while index < |input| && index - start < 128
      invariant start + run <= index <= |input| && index - start <= 128
      invariant end == LiteralEnd(s, index - start)
    {
      var next, done := TakeRun(input, s, start, index, end);
      if done {
        return;
      }
      index := next;
    }
    LiteralEndsAtLimits(s, index - start);
  }

  /** One step of that scan: the next run ends the literal or joins it. */
  method TakeRun(input: seq<byte>, ghost s: seq<byte>, start: nat, index: nat, ghost end: nat)
    returns (next: nat, done: bool)
    requires start <= index < |input| && index - start < 128
    requires s == input[start..] && end == LiteralEnd(s, index - start)
    ensures done ==> end == index - start
    ensures !done ==> index < next <= |input| && next - start <= 128 && end == LiteralEnd(s, next - start)
  {
    var nextRun := CountRun(input, index, 3);
    ScanStep(input, s, start, index, nextRun);
    next := index + nextRun;
    done := nextRun >= 3 || index + nextRun - start > 128;
  }

  // ------------------------------------------------------------------
  // The decoder
  // ------------------------------------------------------------------

  /** What the blocks after the header decode to; none if the last one is cut short. */
  function Decoded(rest: seq<byte>): Option<seq<byte>>
    decreases |rest|
  {
    if rest == [] then Some([])
    else
      var length := LengthOf(rest[0]);
      var taken := if IsRepeat(rest[0]) then 2 else 1 + length;
      if |rest| < taken then None
      else
        Prefixed(if IsRepeat(rest[0]) then Copies(rest[1], length) else rest[1..taken], Decoded(rest[taken..]))
  }

  function Prefixed(out: seq<byte>, tail: Option<seq<byte>>): Option<seq<byte>> {
    match tail
    case None => None
    case Some(bytes) => Some(out + bytes)
  }

  lemma PrefixedTwice(a: seq<byte>, b: seq<byte>, tail: Option<seq<byte>>)
    ensures Prefixed(a, Prefixed(b, tail)) == Prefixed(a + b, tail) && Prefixed([], tail) == tail
  {
    if tail.Some? {
      assert a + (b + tail.value) == a + b + tail.value;
      assert [] + tail.value == tail.value;
    }
  }

  function Decompressed(input: seq<byte>): Option<seq<byte>> {
    if HEADER <= input then Decoded(input[|HEADER|..]) else None
  }

  /** The decoder as the source runs it: consuming the rest of the input. */
  method Decompress(input: seq<byte>) returns (result: Option<seq<byte>>)
    ensures result == Decompressed(input)
  {
    if !(HEADER <= input) {
      return None;
    }
    var rest := input[|HEADER|..];
    var out: seq<byte> := [];
    PrefixedTwice([], [], Decoded(rest));
    while rest != []
      invariant Decompressed(input) == Prefixed(out, Decoded(rest))
      decreases |rest|
    {
      ghost var before := rest;
      var tag := rest[0];
      rest := rest[1..];
      var length := LengthOf(tag);
      if IsRepeat(tag) {
        if rest == [] {
          return None;
        }
        PrefixedTwice(out, Copies(rest[0], length), Decoded(rest[1..]));
        out := out + Copies(rest[0], length);
        rest := rest[1..];
        assert before[2..] == rest;
      } else {
        if |rest| < length {
          return None;
        }
        PrefixedTwice(out, rest[..length], Decoded(rest[length..]));
        out := out + rest[..length];
        assert before[1..1 + length] == rest[..length];
        rest := rest[length..];
        assert before[1 + length..] == rest;
      }
    }
    assert out + [] == out;
    return Some(out);
  }

  // ------------------------------------------------------------------
  // Round trip
  // ------------------------------------------------------------------

  /** Decoding one rendered block in front of anything. */
  lemma DecodeBlock(block: Block, rest: seq<byte>)
    requires Fits(block)
    ensures Decoded(Render(block) + rest) == Prefixed(Expand(block), Decoded(rest))
  {
    match block
    case Repeat(count, value) => DecodeRepeat(count, value, rest);
    case Literal(bytes) => DecodeLiteral(bytes, rest);
  }

  lemma DecodeRepeat(count: nat, value: byte, rest: seq<byte>)
    requires Fits(Repeat(count, value))
    ensures Decoded(Render(Repeat(count, value)) + rest) == Prefixed(Copies(value, count), Decoded(rest))
  {
    var tag := RepeatTag(count);
    var all := [tag, value] + rest;
    assert all[0] == tag && all[1] == value && all[2..] == rest;
  }

  lemma DecodeLiteral(bytes: seq<byte>, rest: seq<byte>)
    requires Fits(Literal(bytes))
    ensures Decoded(Render(Literal(bytes)) + rest) == Prefixed(bytes, Decoded(rest))
  {
    var tag := LiteralTag(|bytes|);
    var all := [tag] + bytes + rest;
    assert all[0] == tag && all[1..1 + |bytes|] == bytes && all[1 + |bytes|..] == rest;
  }

  lemma {:induction false} DecodeBlocks(blocks: seq<Block>)
    requires AllFit(blocks)
    ensures Decoded(RenderAll(blocks)) == Some(ExpandAll(blocks))
  {
    if blocks != [] {
      DecodeBlocks(blocks[1..]);
      DecodeBlock(blocks[0], RenderAll(blocks[1..]));
    }
  }

  lemma {:induction false} BlocksExpand(s: seq<byte>)
    ensures ExpandAll(Blocks(s)) == s
    decreases |s|
  {
    if s != [] {
      var block := NextBlock(s);
      BlocksExpand(s[|Expand(block)|..]);
      assert Blocks(s)[1..] == Blocks(s[|Expand(block)|..]);
      assert s[..|Expand(block)|] + s[|Expand(block)|..] == s;
    }
  }

  /** Decompressing what was compressed gives every byte string back. */
  lemma RoundTrip(input: seq<byte>)
    ensures Decompressed(Compressed(input)) == Some(input)
  {
    DecodeBlocks(Blocks(input));
    BlocksExpand(input);
    assert Compressed(input)[|HEADER|..] == RenderAll(Blocks(input));
  }

  /** The first block of an accepted body. */
  function FirstBlock(rest: seq<byte>): (block: Block)
    requires rest != [] && Decoded(rest).Some?
    ensures Fits(block) && |Render(block)| <= |rest|
  {
    var length := LengthOf(rest[0]);
    if IsRepeat(rest[0]) then Repeat(length, rest[1]) else Literal(rest[1..1 + length])
  }

  /** It stands rendered at the front, and what is behind it is accepted too. */
  lemma FirstBlockDecodes(rest: seq<byte>)
    requires rest != [] && Decoded(rest).Some?
    ensures var block := FirstBlock(rest);
            var tail := rest[|Render(block)|..];
            && Render(block) + tail == rest && Decoded(tail).Some?
            && Decoded(rest) == Some(Expand(block) + Decoded(tail).value)
  {
    TagsAreTheirLengths(rest[0]);
    if IsRepeat(rest[0]) {
      assert Render(FirstBlock(rest)) == [rest[0], rest[1]];
    } else {
      FirstLiteralDecodes(rest);
    }
  }

  lemma FirstLiteralDecodes(rest: seq<byte>)
    requires rest != [] && !IsRepeat(rest[0]) && Decoded(rest).Some?
    ensures var block := FirstBlock(rest);
            var tail := rest[|Render(block)|..];
            && Render(block) + tail == rest && Decoded(tail).Some?
            && Decoded(rest) == Some(Expand(block) + Decoded(tail).value)
  {
    TagsAreTheirLengths(rest[0]);
    var n := LengthOf(rest[0]);
    PartsJoin(rest, n);
    LiteralRenders(rest[0], rest[1..1 + n]);
  }

  lemma LiteralRenders(tag: byte, bytes: seq<byte>)
    requires Fits(Literal(bytes)) && tag == LiteralTag(|bytes|)
    ensures Render(Literal(bytes)) == [tag] + bytes && |Render(Literal(bytes))| == 1 + |bytes|
  {
  }

  lemma PartsJoin<T>(all: seq<T>, n: nat)
    requires 1 + n <= |all|
    ensures [all[0]] + all[1..1 + n] + all[1 + n..] == all
  {
  }

  /** The blocks of an accepted body. */
  function Parsed(rest: seq<byte>): (blocks: seq<Block>)
    requires Decoded(rest).Some?
    ensures forall block | block in blocks :: Fits(block)
    decreases |rest|
  {
    if rest == [] then []
    else
      FirstBlockDecodes(rest);
      [FirstBlock(rest)] + Parsed(rest[|Render(FirstBlock(rest))|..])
  }

  lemma {:induction false} ParsedRenders(rest: seq<byte>)
    requires Decoded(rest).Some?
    ensures RenderAll(Parsed(rest)) == rest && ExpandAll(Parsed(rest)) == Decoded(rest).value
    decreases |rest|
  {
    if rest != [] {
      var block := FirstBlock(rest);
      var tail := rest[|Render(block)|..];
      FirstBlockDecodes(rest);
      ParsedRenders(tail);
      assert Parsed(rest)[0] == block && Parsed(rest)[1..] == Parsed(tail);
    }
  }

  /** The decoder accepts exactly the renderings of well-formed block lists, and
      expands them. */
  lemma AcceptsExactlyRenderings(input: seq<byte>, output: seq<byte>)
    ensures Decompressed(input) == Some(output)
            <==> exists blocks :: AllFit(blocks) && input == HEADER + RenderAll(blocks) && output == ExpandAll(blocks)
  {
    if Decompressed(input) == Some(output) {
      var rest := input[|HEADER|..];
      ParsedRenders(rest);
      assert input == HEADER + rest;
      assert AllFit(Parsed(rest));
    }
    forall blocks | AllFit(blocks) && input == HEADER + RenderAll(blocks)
      ensures Decompressed(input) == Some(ExpandAll(blocks))
    {
      DecodeBlocks(blocks);
      assert input[|HEADER|..] == RenderAll(blocks);
    }
  }

  // ------------------------------------------------------------------
  // Sizes
  // ------------------------------------------------------------------

  function CeilDiv(n: nat, d: nat): nat
    requires d > 0
  {
    (n + d - 1) / d
  }

  /** Where a literal stops short of 127 bytes, the input ends or a run of three begins. */
  lemma {:induction false} LiteralEndsForAReason(s: seq<byte>, taken: nat)
    requires taken <= |s| && taken <= 128
    ensures var end := LiteralEnd(s, taken);
            end >= 127 || end == |s| || Run(s[end..], 3) >= 3
    decreases |s| - taken
  {
    if taken < |s| && taken < 128 {
      var next := Run(s[taken..], 3);
      if next < 3 && taken + next <= 128 {
        LiteralEndsForAReason(s, taken + next);
      }
    }
  }

  lemma LongerCapLongerRun(s: seq<byte>)
    requires s != [] && Run(s, 3) >= 3
    ensures Run(s, 128) >= 3
  {
  }

  /** Cost of the blocks that follow a literal: at least a repeat saves what the literal's tag cost. */
  lemma {:induction false} UpperBound(s: seq<byte>)
    ensures |RenderAll(Blocks(s))| <= |s| + CeilDiv(|s|, 127)
    ensures s != [] && Run(s, 128) >= 3 ==> |RenderAll(Blocks(s))| + 1 <= |s| + CeilDiv(|s|, 127)
    decreases |s|
  {
    if s != [] {
      var block := NextBlock(s);
      var n := |Expand(block)|;
      var tail := s[n..];
      UpperBound(tail);
      BlocksStep(s);
      if Run(s, 128) < 3 {
        LiteralEndsForAReason(s, Run(s, 128));
        if tail != [] && n < 127 {
          LongerCapLongerRun(tail);
        }
      }
    }
  }

  lemma OneMoreBlock(n: nat, m: nat)
    requires n <= 128
    ensures CeilDiv(n + m, 128) <= 1 + CeilDiv(m, 128)
  {
  }

  lemma {:induction false} LowerBound(s: seq<byte>)
    ensures |RenderAll(Blocks(s))| >= 2 * CeilDiv(|s|, 128)
    decreases |s|
  {
    if s != [] {
      var n := |Expand(NextBlock(s))|;
      BlocksStep(s);
      LowerBound(s[n..]);
      OneMoreBlock(n, |s[n..]|);
    }
  }

  /** The size of every compressed input, from both sides. */
  lemma CompressedSize(input: seq<byte>)
    ensures 5 + 2 * CeilDiv(|input|, 128) <= |Compressed(input)| <= 5 + |input| + CeilDiv(|input|, 127)
  {
    LowerBound(input);
    UpperBound(input);
  }

  lemma {:induction false} ExpansionBound(rest: seq<byte>)
    requires Decoded(rest).Some?
    ensures |Decoded(rest).value| <= 64 * |rest|
    decreases |rest|
  {
    if rest != [] {
      ExpansionBound(rest[|Render(FirstBlock(rest))|..]);
    }
  }

  /** No accepted body expands more than sixty-four-fold. */
  lemma DecompressedSize(input: seq<byte>)
    requires Decompressed(input).Some?
    ensures |Decompressed(input).value| <= 64 * (|input| - 5)
  {
    ExpansionBound(input[|HEADER|..]);
  }

  // ------------------------------------------------------------------
  // Literals hold no run
  // ------------------------------------------------------------------

  ghost predicate NoTriple(bytes: seq<byte>) {
    forall i :: 0 <= i < |bytes| - 2 ==> !(bytes[i] == bytes[i + 1] == bytes[i + 2])
  }

  /** `taken` bytes hold no triple, and none that the next byte could complete. */
  ghost predicate Separated(s: seq<byte>, taken: nat)
    requires taken <= |s|
  {
    NoTriple(s[..taken]) && (0 < taken < |s| ==> s[taken - 1] != s[taken])
  }

  lemma {:induction false} LiteralHasNoTriple(s: seq<byte>, taken: nat)
    requires 0 < taken <= |s| && taken <= 128 && Separated(s, taken)
    ensures NoTriple(s[..LiteralEnd(s, taken)])
    decreases |s| - taken
  {
    if taken < |s| && taken < 128 {
      var rest, next := s[taken..], Run(s[taken..], 3);
      if next < 3 && taken + next <= 128 {
        forall i | 0 <= i < taken + next - 2 ensures !(s[i] == s[i + 1] == s[i + 2]) {
          if i + 2 < taken {
            assert s[..taken][i] == s[i] && s[..taken][i + 1] == s[i + 1] && s[..taken][i + 2] == s[i + 2];
          }
        }
        if taken + next < |s| {
          assert rest[next] != rest[0] && rest[next - 1] == rest[0];
        }
        LiteralHasNoTriple(s, taken + next);
      }
    }
  }

  /** Runs of three or more never hide in a literal. */
  lemma {:induction false} LiteralsHoldNoRun(input: seq<byte>)
    ensures forall block | block in Blocks(input) && block.Literal? :: NoTriple(block.bytes)
    decreases |input|
  {
    if input != [] {
      var block := NextBlock(input);
      LiteralsHoldNoRun(input[|Expand(block)|..]);
      if block.Literal? {
        LiteralHasNoTriple(input, Run(input, 128));
      }
    }
  }

  function FirstByte(block: Block): byte
    requires Fits(block)
  {
    match block
    case Repeat(_, value) => value
    case Literal(bytes) => bytes[0]
  }

  lemma FirstOfInput(s: seq<byte>)
    requires s != []
    ensures FirstByte(NextBlock(s)) == s[0]
  {
    var block := NextBlock(s);
    assert Expand(block)[0] == s[..|Expand(block)|][0];
  }

  /** A repeat goes on as far as its run does, up to 128 bytes. */
  lemma {:induction false} RepeatsTakeTheirRun(input: seq<byte>, k: nat)
    requires k + 1 < |Blocks(input)| && Blocks(input)[k].Repeat?
    ensures Blocks(input)[k].count == 128 || FirstByte(Blocks(input)[k + 1]) != Blocks(input)[k].value
    decreases |input|
  {
    var block := NextBlock(input);
    var tail := input[|Expand(block)|..];
    assert Blocks(input)[1..] == Blocks(tail);
    if k > 0 {
      RepeatsTakeTheirRun(tail, k - 1);
    } else {
      assert tail != [] && Blocks(input)[1] == NextBlock(tail);
      FirstOfInput(tail);
      assert block == Repeat(Run(input, 128), input[0]) && tail[0] == input[block.count];
    }
  }
}
