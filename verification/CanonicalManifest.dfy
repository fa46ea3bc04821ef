/** The canonical bytes of a bootstrap manifest: what its fingerprint is taken over
    (crates/familiar-ai-core/src/bootstrap.rs, lines 11-18, 185-198 and 246-252). Fields and
    items as bytes, the order the items are put in, and why two item lists that differ never
    share their bytes: each field's length is fixed or stated before it, so the encoding
    parses back in one way, and hashes decode without loss. */
module CanonicalManifest {
  import opened Wrappers
  import StringOrder

  newtype byte = b: int | 0 <= b < 256

  const U32: nat := 0x1_0000_0000

  datatype Item = Item(
    path: string, number: nat, suffix: Option<char>, declaredHash: string, observedHash: string)

  // ------------------------------------------------------------------
  // Fields
  // ------------------------------------------------------------------

  /** A length or version as four bytes, most significant first; wider values are cut to 32 bits. */
  function BigEndian(n: nat): (bytes: seq<byte>)
    ensures |bytes| == 4
  {
    var q1 := n / 0x100;
    var q2 := q1 / 0x100;
    var q3 := q2 / 0x100;
    [(q3 % 0x100) as byte, (q2 % 0x100) as byte, (q1 % 0x100) as byte, (n % 0x100) as byte]
  }

  function FromBigEndian(bytes: seq<byte>): int
    requires |bytes| == 4
  {
    bytes[0] as int * 0x100_0000 + bytes[1] as int * 0x1_0000 + bytes[2] as int * 0x100 + bytes[3] as int
  }

  lemma BigEndianReadsBack(n: nat)
    requires n < U32
    ensures FromBigEndian(BigEndian(n)) == n
  {
    var q1 := n / 0x100;
    var q2 := q1 / 0x100;
    var q3 := q2 / 0x100;
    assert n == q1 * 0x100 + n % 0x100;
    assert q1 == q2 * 0x100 + q1 % 0x100;
    assert q2 == q3 * 0x100 + q2 % 0x100;
    assert q3 % 0x100 == q3;
  }

  predicate IsAscii(text: string) {
    forall i :: 0 <= i < |text| ==> text[i] as int < 128
  }

  function TextBytes(text: string): (bytes: seq<byte>)
    requires IsAscii(text)
    ensures |bytes| == |text|
  {
    seq(|text|, i requires 0 <= i < |text| => text[i] as int as byte)
  }

  lemma TextBytesInjective(a: string, b: string)
    requires IsAscii(a) && IsAscii(b) && TextBytes(a) == TextBytes(b)
    ensures a == b
  {
    assert |a| == |TextBytes(a)| == |b|;
    forall i | 0 <= i < |a| ensures a[i] == b[i] {
      assert TextBytes(a)[i] as int == a[i] as int && TextBytes(b)[i] as int == b[i] as int;
    }
  }

  predicate HexDigit(c: char) {
    '0' <= c <= '9' || 'a' <= c <= 'f'
  }

  /** Sixty-four lower-case hexadecimal characters. */
  predicate IsHash(text: string) {
    |text| == 64 && forall i :: 0 <= i < 64 ==> HexDigit(text[i])
  }

  function HexValue(c: char): (v: int)
    requires HexDigit(c)
    ensures 0 <= v < 16
  {
    if c <= '9' then c as int - '0' as int else c as int - 'a' as int + 10
  }

  function HexByte(high: char, low: char): byte
    requires HexDigit(high) && HexDigit(low)
  {
    (16 * HexValue(high) + HexValue(low)) as byte
  }

  lemma HexByteInjective(a: char, b: char, c: char, d: char)
    requires HexDigit(a) && HexDigit(b) && HexDigit(c) && HexDigit(d)
    ensures HexByte(a, b) == HexByte(c, d) <==> a == c && b == d
  {
  }

  function DecodedHash(hash: string): (bytes: seq<byte>)
    requires IsHash(hash)
    ensures |bytes| == 32
  {
    seq(32, i requires 0 <= i < 32 => HexByte(hash[2 * i], hash[2 * i + 1]))
  }

  /** The decoder as the source runs it, filling a buffer of 32 bytes. */
  method DecodeHash(value: string) returns (out: array<byte>)
    requires IsHash(value)
    ensures fresh(out) && out[..] == DecodedHash(value)
  {
    out := new byte[32];
    for i := 0 to 32
      invariant forall k :: 0 <= k < i ==> out[k] == DecodedHash(value)[k]
    {
      out[i] := HexByte(value[i * 2], value[i * 2 + 1]);
    }
  }

  function HexDigitOf(v: int): (c: char)
    requires 0 <= v < 16
    ensures HexDigit(c)
  {
    if v < 10 then ('0' as int + v) as char else ('a' as int + v - 10) as char
  }

  /** Bytes as lower-case hexadecimal text, the high half of each first. */
  function HexText(bytes: seq<byte>): string {
    if bytes == [] then ""
    else [HexDigitOf(bytes[0] as int / 16), HexDigitOf(bytes[0] as int % 16)] + HexText(bytes[1..])
  }

  lemma {:induction false} HexTextAt(bytes: seq<byte>, i: nat)
    requires i < |bytes|
    ensures |HexText(bytes)| == 2 * |bytes|
    ensures HexText(bytes)[2 * i] == HexDigitOf(bytes[i] as int / 16)
    ensures HexText(bytes)[2 * i + 1] == HexDigitOf(bytes[i] as int % 16)
  {
    if i > 0 {
      HexTextAt(bytes[1..], i - 1);
    } else if |bytes| > 1 {
      HexTextAt(bytes[1..], 0);
    }
  }

  /** Printing a decoded hash gives the hash. */
  lemma DecodedHashPrintsBack(hash: string)
    requires IsHash(hash)
    ensures HexText(DecodedHash(hash)) == hash
  {
    var bytes := DecodedHash(hash);
    forall i | 0 <= i < 32
      ensures |HexText(bytes)| == 64
      ensures HexText(bytes)[2 * i] == hash[2 * i] && HexText(bytes)[2 * i + 1] == hash[2 * i + 1]
    {
      HexTextAt(bytes, i);
      HalvesOfByte(hash[2 * i], hash[2 * i + 1]);
    }
    forall k | 0 <= k < 64 ensures HexText(bytes)[k] == hash[k] {
      assert k == 2 * (k / 2) || k == 2 * (k / 2) + 1;
      assert 0 <= k / 2 < 32;
    }
    assert 0 <= 0 < 32 && |HexText(bytes)| == 64;
  }

  lemma HalvesOfByte(high: char, low: char)
    requires HexDigit(high) && HexDigit(low)
    ensures HexDigitOf(HexByte(high, low) as int / 16) == high && HexDigitOf(HexByte(high, low) as int % 16) == low
  {
  }

  /** Different hashes decode to different bytes. */
  lemma DecodeHashInjective(a: string, b: string)
    requires IsHash(a) && IsHash(b)
    ensures DecodedHash(a) == DecodedHash(b) <==> a == b
  {
    if DecodedHash(a) == DecodedHash(b) {
      forall i | 0 <= i < 64 ensures a[i] == b[i] {
        var k := i / 2;
        assert DecodedHash(a)[k] == DecodedHash(b)[k];
        HexByteInjective(a[2 * k], a[2 * k + 1], b[2 * k], b[2 * k + 1]);
      }
    }
  }

  // ------------------------------------------------------------------
  // Items
  // ------------------------------------------------------------------

  predicate Encodable(item: Item) {
    IsAscii(item.path) && IsHash(item.declaredHash)
  }

  ghost predicate AllEncodable(items: seq<Item>) {
    forall i :: 0 <= i < |items| ==> Encodable(items[i])
  }

  ghost predicate ShortPaths(items: seq<Item>) {
    forall i :: 0 <= i < |items| ==> |items[i].path| < U32
  }

  function ItemBytes(item: Item): seq<byte>
    requires Encodable(item)
  {
    BigEndian(|item.path|) + (TextBytes(item.path) + DecodedHash(item.declaredHash))
  }

  function ItemsBytes(items: seq<Item>): seq<byte>
    requires AllEncodable(items)
  {
    if items == [] then [] else ItemBytes(items[0]) + ItemsBytes(items[1..])
  }

  function CanonicalBytes(version: nat, items: seq<Item>): seq<byte>
    requires AllEncodable(items)
  {
    BigEndian(version) + ItemsBytes(items)
  }

  /** The buffer as the source grows it. */
  method BuildCanonical(version: nat, items: seq<Item>) returns (canonical: seq<byte>)
    requires AllEncodable(items)
    ensures canonical == CanonicalBytes(version, items)
  {
    canonical := BigEndian(version);
    for i := 0 to |items|
      invariant canonical + ItemsBytes(items[i..]) == CanonicalBytes(version, items)
    {
      var item := items[i];
      assert items[i..][1..] == items[i + 1..];
      AppendAssoc(canonical, ItemBytes(item), ItemsBytes(items[i + 1..]));
      canonical := AppendItem(canonical, item);
    }
    assert items[|items|..] == [] && canonical + [] == canonical;
  }

  method AppendItem(before: seq<byte>, item: Item) returns (canonical: seq<byte>)
    requires Encodable(item)
    ensures canonical == before + ItemBytes(item)
  {
    canonical := before + BigEndian(|item.path|);
    canonical := canonical + TextBytes(item.path);
    var hash := DecodeHash(item.declaredHash);
    canonical := canonical + hash[..];
  }

  lemma AppendAssoc<T>(a: seq<T>, b: seq<T>, c: seq<T>)
    ensures a + (b + c) == (a + b) + c
  {
  }

  // ------------------------------------------------------------------
  // The encoding parses back
  // ------------------------------------------------------------------

  /** What the encoding speaks of: paths and the hashes declared for them. */
  function Pairs(items: seq<Item>): (pairs: seq<(string, string)>)
    ensures |pairs| == |items|
  {
    seq(|items|, i requires 0 <= i < |items| => (items[i].path, items[i].declaredHash))
  }

  lemma SplitAt<T>(a: seq<T>, x: seq<T>, b: seq<T>, y: seq<T>)
    requires a + x == b + y && |a| == |b|
    ensures a == b && x == y
  {
    assert (a + x)[..|a|] == a && (b + y)[..|b|] == b;
    assert (a + x)[|a|..] == x && (b + y)[|b|..] == y;
  }

  /** No item's bytes begin another's: the length field tells where each ends. */
  lemma ItemBytesPrefixFree(a: Item, x: seq<byte>, b: Item, y: seq<byte>)
    requires Encodable(a) && Encodable(b) && |a.path| < U32 && |b.path| < U32
    requires ItemBytes(a) + x == ItemBytes(b) + y
    ensures a.path == b.path && a.declaredHash == b.declaredHash && x == y
  {
    var m, n := TextBytes(a.path) + DecodedHash(a.declaredHash), TextBytes(b.path) + DecodedHash(b.declaredHash);
    AppendAssoc(BigEndian(|a.path|), m, x);
    AppendAssoc(BigEndian(|b.path|), n, y);
    SplitAt(BigEndian(|a.path|), m + x, BigEndian(|b.path|), n + y);
    BigEndianReadsBack(|a.path|);
    BigEndianReadsBack(|b.path|);
    assert |a.path| == |b.path|;
    SplitAt(m, x, n, y);
    SplitAt(TextBytes(a.path), DecodedHash(a.declaredHash), TextBytes(b.path), DecodedHash(b.declaredHash));
    TextBytesInjective(a.path, b.path);
    DecodeHashInjective(a.declaredHash, b.declaredHash);
  }

  lemma PairsUnfold(items: seq<Item>)
    requires items != []
    ensures Pairs(items) == [(items[0].path, items[0].declaredHash)] + Pairs(items[1..])
    ensures Pairs(items)[0] == (items[0].path, items[0].declaredHash) && Pairs(items)[1..] == Pairs(items[1..])
  {
  }

  lemma {:induction false} SameItemBytesSamePairs(a: seq<Item>, b: seq<Item>)
    requires AllEncodable(a) && AllEncodable(b) && ShortPaths(a) && ShortPaths(b)
    requires ItemsBytes(a) == ItemsBytes(b)
    ensures Pairs(a) == Pairs(b)
    decreases |a|
  {
    if a != [] && b != [] {
      ItemBytesPrefixFree(a[0], ItemsBytes(a[1..]), b[0], ItemsBytes(b[1..]));
      SameItemBytesSamePairs(a[1..], b[1..]);
      PairsUnfold(a);
      PairsUnfold(b);
    }
  }

  lemma {:induction false} SamePairsSameItemBytes(a: seq<Item>, b: seq<Item>)
    requires AllEncodable(a) && AllEncodable(b) && Pairs(a) == Pairs(b)
    ensures ItemsBytes(a) == ItemsBytes(b)
    decreases |a|
  {
    assert |a| == |Pairs(a)| == |b|;
    if a != [] {
      PairsUnfold(a);
      PairsUnfold(b);
      assert Pairs(a)[0] == Pairs(b)[0] && Pairs(a)[1..] == Pairs(b)[1..];
      SamePairsSameItemBytes(a[1..], b[1..]);
    }
  }

  /** The canonical bytes are the pairs in order, and nothing less: two item lists have the
      same bytes exactly when they list the same paths with the same hashes. */
  lemma BytesArePairs(version: nat, a: seq<Item>, b: seq<Item>)
    requires AllEncodable(a) && AllEncodable(b) && ShortPaths(a) && ShortPaths(b)
    ensures CanonicalBytes(version, a) == CanonicalBytes(version, b) <==> Pairs(a) == Pairs(b)
  {
    if CanonicalBytes(version, a) == CanonicalBytes(version, b) {
      SplitAt(BigEndian(version), ItemsBytes(a), BigEndian(version), ItemsBytes(b));
      SameItemBytesSamePairs(a, b);
    }
    if Pairs(a) == Pairs(b) {
      SamePairsSameItemBytes(a, b);
    }
  }

  // ------------------------------------------------------------------
  // Order
  // ------------------------------------------------------------------

  predicate Before(a: Item, b: Item) {
    a.number < b.number || (a.number == b.number && StringOrder.Less(a.path, b.path))
  }

  ghost predicate StrictlySorted(items: seq<Item>) {
    forall i, j :: 0 <= i < j < |items| ==> Before(items[i], items[j])
  }

  ghost predicate DistinctPaths(items: seq<Item>) {
    forall i, j :: 0 <= i < j < |items| ==> items[i].path != items[j].path
  }

  function Inserted(item: Item, sorted: seq<Item>): (result: seq<Item>)
    ensures forall x :: x in result <==> x == item || x in sorted
    ensures |result| == |sorted| + 1
  {
    if sorted == [] || Before(item, sorted[0]) then [item] + sorted
    else [sorted[0]] + Inserted(item, sorted[1..])
  }

  function Sorted(items: seq<Item>): (result: seq<Item>)
    ensures forall x :: x in result <==> x in items
    ensures |result| == |items|
  {
    if items == [] then [] else Inserted(items[|items| - 1], Sorted(items[..|items| - 1]))
  }

  lemma BeforeIsTransitive(a: Item, b: Item, c: Item)
    requires Before(a, b) && Before(b, c)
    ensures Before(a, c)
  {
    if a.number == b.number == c.number { StringOrder.LessIsTransitive(a.path, b.path, c.path); }
  }

  lemma BeforeIsIrreflexive(a: Item)
    ensures !Before(a, a)
  {
    StringOrder.LessIsIrreflexive(a.path);
  }

  lemma BeforeIsTotal(a: Item, b: Item)
    requires a.path != b.path
    ensures Before(a, b) || Before(b, a)
  {
    StringOrder.LessIsTotal(a.path, b.path);
  }

  lemma {:induction false} InsertedIsSorted(item: Item, sorted: seq<Item>)
    requires StrictlySorted(sorted) && forall x :: x in sorted ==> x.path != item.path
    ensures StrictlySorted(Inserted(item, sorted))
    decreases |sorted|
  {
    if sorted == [] {
    } else if Before(item, sorted[0]) {
      forall j | 1 <= j < |sorted| ensures Before(item, sorted[j]) {
        BeforeIsTransitive(item, sorted[0], sorted[j]);
      }
    } else {
      BeforeIsTotal(item, sorted[0]);
      InsertedIsSorted(item, sorted[1..]);
      var rest := Inserted(item, sorted[1..]);
      forall j | 0 <= j < |rest| ensures Before(sorted[0], rest[j]) {
        assert rest[j] in rest;
      }
    }
  }

  lemma {:induction false} SortedIsSorted(items: seq<Item>)
    requires DistinctPaths(items)
    ensures StrictlySorted(Sorted(items))
  {
    if items != [] {
      var front := items[..|items| - 1];
      SortedIsSorted(front);
      InsertedIsSorted(items[|items| - 1], Sorted(front));
    }
  }

  lemma {:induction false} OneSortedOrder(a: seq<Item>, b: seq<Item>)
    requires StrictlySorted(a) && StrictlySorted(b)
    requires forall x :: x in a <==> x in b
    ensures a == b
    decreases |a|
  {
    assert a != [] ==> a[0] in b;
    assert b != [] ==> b[0] in a;
    if a != [] {
      FirstIsLeast(a, b[0]);
      FirstIsLeast(b, a[0]);
      if a[0] != b[0] {
        BeforeIsIrreflexive(a[0]);
        BeforeIsTransitive(a[0], b[0], a[0]);
        assert false;
      }
      TailHoldsTheOthers(a);
      TailHoldsTheOthers(b);
      OneSortedOrder(a[1..], b[1..]);
      assert a == [a[0]] + a[1..] && b == [b[0]] + b[1..];
    }
  }

  lemma FirstIsLeast(a: seq<Item>, x: Item)
    requires StrictlySorted(a) && a != [] && x in a
    ensures x == a[0] || Before(a[0], x)
  {
  }

  lemma TailHoldsTheOthers(a: seq<Item>)
    requires StrictlySorted(a) && a != []
    ensures forall x :: x in a[1..] <==> x in a && x != a[0]
  {
    BeforeIsIrreflexive(a[0]);
    assert a == [a[0]] + a[1..];
    forall x | x in a[1..] ensures x != a[0] {
      var i :| 0 <= i < |a[1..]| && a[1..][i] == x;
      assert Before(a[0], a[i + 1]);
    }
  }
}
