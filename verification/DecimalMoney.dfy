/** Money between decimal text and whole micro-dollars
    (crates/familiar-ai-agent/src/claude_code.rs, lines 92-99 and 333-374). */
module DecimalMoney {
  import opened Wrappers
  import opened Rounding

  const U64_MAX: nat := 0xFFFF_FFFF_FFFF_FFFF
  const I64_MAX: nat := 0x7FFF_FFFF_FFFF_FFFF

  // ------------------------------------------------------------------
  // What the conversion should be
  // ------------------------------------------------------------------

  function DotAt(value: string): (i: nat)
    ensures i <= |value| && (forall j :: 0 <= j < i ==> value[j] != '.') && (i < |value| ==> value[i] == '.')
  {
    if value == "" || value[0] == '.' then 0
    else
      var rest := DotAt(value[1..]);
      assert forall j :: 1 <= j < 1 + rest ==> value[j] == value[1..][j - 1];
      1 + rest
  }

  /** What stands before and after the first dot; no dot leaves the second part empty. */
  function SplitOnce(value: string): (string, string) {
    var dot := DotAt(value);
    if dot == |value| then (value, "") else (value[..dot], value[dot + 1..])
  }

  /** Digits with an optional fraction. */
  predicate IsDecimal(value: string) {
    var (whole, fraction) := SplitOnce(value);
    whole != "" && AllDigits(whole) && AllDigits(fraction)
  }

  /** The decimal as a fraction: this over ten to the number of fraction digits. */
  function Numerator(value: string): nat
    requires IsDecimal(value)
  {
    var (whole, fraction) := SplitOnce(value);
    Number(whole + fraction)
  }

  function Denominator(value: string): (d: nat)
    ensures d >= 1
  {
    Pow10(|SplitOnce(value).1|)
  }

  /** The value of a decimal text at a scale: rounded half to even, refused when the text
      is no decimal or the rounded value leaves the signed 64-bit range. */
  function Scaled(value: string, scale: nat): Option<nat> {
    if !IsDecimal(value) then None
    else
      var n := HalfEven(Shift(Numerator(value), scale), Denominator(value));
      if n <= I64_MAX then Some(n) else None
  }

  // ------------------------------------------------------------------
  // The conversion as it runs
  // ------------------------------------------------------------------

  function ParseU64(digits: string): Option<nat>
    requires AllDigits(digits) && digits != ""
  {
    if Number(digits) <= U64_MAX then Some(Number(digits)) else None
  }

  function CheckedMul(a: nat, b: nat): Option<nat> {
    if a * b <= U64_MAX then Some(a * b) else None
  }

  function CheckedAdd(a: nat, b: nat): Option<nat> {
    if a + b <= U64_MAX then Some(a + b) else None
  }

  /** Whether the digits left out round the kept value up. */
  predicate RoundsUp(fraction: string, scale: nat, out: nat) {
    scale < |fraction|
    && (fraction[scale] > '5'
        || (fraction[scale] == '5' && ((exists i :: scale < i < |fraction| && fraction[i] != '0') || out % 2 == 1)))
  }

  function Kept(fraction: string, scale: nat): string {
    if |fraction| <= scale then fraction else fraction[..scale]
  }

  /** The value before rounding. */
  function Truncated(whole: string, fraction: string, scale: nat): nat
    requires AllDigits(whole) && AllDigits(fraction)
  {
    var kept := Kept(fraction, scale);
    Shift(Number(whole), scale) + Shift(Number(kept), scale - |kept|)
  }

  /** When every digit is kept the value is exact. */
  lemma ShortFractionIsExact(whole: string, fraction: string, scale: nat)
    requires AllDigits(whole) && AllDigits(fraction) && |fraction| <= scale
    ensures AllDigits(whole + fraction)
    ensures HalfEven(Shift(Number(whole + fraction), scale), Pow10(|fraction|)) == Truncated(whole, fraction, scale)
  {
    var f, n := |fraction|, Number(whole + fraction);
    NumberOfConcat(whole, fraction);
    NothingRounded(n, f, scale);
    ShiftAdds(Shift(Number(whole), f), Number(fraction), scale - f);
    ShiftTwice(Number(whole), f, scale - f);
  }

  lemma RestIsTheTail(fraction: string, scale: nat)
    requires scale < |fraction|
    ensures var rest := fraction[scale..];
            && rest[0] == fraction[scale]
            && ((exists i :: 0 < i < |rest| && rest[i] != '0')
               <==> (exists i :: scale < i < |fraction| && fraction[i] != '0'))
  {
    var rest := fraction[scale..];
    forall i | scale < i < |fraction| && fraction[i] != '0' ensures exists j :: 0 < j < |rest| && rest[j] != '0' {
      assert rest[i - scale] == fraction[i];
    }
    forall j | 0 < j < |rest| && rest[j] != '0' ensures exists i :: scale < i < |fraction| && fraction[i] != '0' {
      assert fraction[j + scale] == rest[j];
    }
  }

  lemma RoundsUpPastHalf(fraction: string, scale: nat, out: nat)
    requires AllDigits(fraction) && scale < |fraction|
    ensures var r, q := Number(fraction[scale..]), Pow10(|fraction| - scale);
            r < q && (RoundsUp(fraction, scale, out) <==> 2 * r > q || (2 * r == q && out % 2 == 1))
  {
    RestAgainstHalf(fraction[scale..]);
    RestIsTheTail(fraction, scale);
  }

  /** Otherwise the kept digits are the quotient and the others the remainder. */
  lemma DigitsSplit(whole: string, fraction: string, scale: nat)
    requires AllDigits(whole) && AllDigits(fraction) && scale < |fraction|
    ensures AllDigits(whole + fraction)
    ensures Number(whole + fraction)
            == Shift(Truncated(whole, fraction, scale), |fraction| - scale) + Number(fraction[scale..])
  {
    var kept, rest := fraction[..scale], fraction[scale..];
    NumberOfConcat(whole, kept);
    assert Truncated(whole, fraction, scale) == Number(whole + kept);
    assert whole + fraction == (whole + kept) + rest;
    NumberOfConcat(whole + kept, rest);
  }

  lemma LongFractionRounds(whole: string, fraction: string, scale: nat)
    requires AllDigits(whole) && AllDigits(fraction) && scale < |fraction|
    ensures AllDigits(whole + fraction)
    ensures var out := Truncated(whole, fraction, scale);
            HalfEven(Shift(Number(whole + fraction), scale), Pow10(|fraction|))
            == if RoundsUp(fraction, scale, out) then out + 1 else out
  {
    var out := Truncated(whole, fraction, scale);
    DigitsSplit(whole, fraction, scale);
    RoundsUpPastHalf(fraction, scale, out);
    RoundQuotient(Number(whole + fraction), out, Number(fraction[scale..]), |fraction| - scale, scale);
  }

  /** The steps of the conversion give the rounded value. */
  lemma StepsRound(value: string, scale: nat)
    requires IsDecimal(value)
    ensures var (whole, fraction) := SplitOnce(value);
            var out := Truncated(whole, fraction, scale);
            HalfEven(Shift(Numerator(value), scale), Denominator(value))
            == if RoundsUp(fraction, scale, out) then out + 1 else out
  {
    var (whole, fraction) := SplitOnce(value);
    if |fraction| <= scale {
      ShortFractionIsExact(whole, fraction, scale);
    } else {
      LongFractionRounds(whole, fraction, scale);
    }
  }

  /** Machine words suffice: at these scales no intermediate overflow hides a value that
      would have been in range, and no kept fraction overflows by itself. */
  lemma KeptFits(fraction: string, scale: nat)
    requires AllDigits(fraction) && scale <= 19
    ensures AllDigits(Kept(fraction, scale))
    ensures var kept := Kept(fraction, scale);
            Number(kept) <= Shift(Number(kept), scale - |kept|) < Pow10(scale) <= U64_MAX
  {
    KeptIsBelow(fraction, scale);
    PowerFits(scale);
  }

  lemma KeptIsBelow(fraction: string, scale: nat)
    requires AllDigits(fraction)
    ensures AllDigits(Kept(fraction, scale))
    ensures var kept := Kept(fraction, scale); Number(kept) <= Shift(Number(kept), scale - |kept|) < Pow10(scale)
  {
    var kept := Kept(fraction, scale);
    NumberIsBelow(kept);
    ShiftIsBelow(Number(kept), |kept|, scale - |kept|);
  }

  lemma PowerFits(k: nat)
    requires k <= 19
    ensures Pow10(k) <= U64_MAX
  {
    PowersGrow(k, 19);
    assert Pow10(7) == 10_000_000;
    assert Pow10(14) == 100_000_000_000_000;
    assert Pow10(19) == 10_000_000_000_000_000_000;
  }

  /** The value before rounding, in machine words: refused exactly when it needs more
      than 64 bits. */
  method TruncateChecked(whole: string, fraction: string, scale: nat) returns (result: Option<nat>)
    requires whole != "" && AllDigits(whole) && AllDigits(fraction) && scale <= 19
    ensures result
            == if Truncated(whole, fraction, scale) <= U64_MAX then Some(Truncated(whole, fraction, scale)) else None
  {
    KeptFits(fraction, scale);
    MulGrows(1, Pow10(scale), Number(whole));
    ShiftMultiplies(Number(whole), scale);
    var parsed := ParseU64(whole);
    if parsed.None? { return None; }
    var product := CheckedMul(parsed.value, Pow10(scale));
    if product.None? { return None; }
    var kept := Kept(fraction, scale);
    if kept == "" {
      ShiftZero(scale);
      return product;
    }
    ShiftMultiplies(Number(kept), scale - |kept|);
    var keptValue := ParseU64(kept);
    var term := CheckedMul(keptValue.value, Pow10(scale - |kept|));
    result := CheckedAdd(product.value, term.value);
  }

  method DecimalToScaled(value: string, scale: nat) returns (result: Option<nat>)
    requires scale <= 19
    ensures result == Scaled(value, scale)
  {
    var (whole, fraction) := SplitOnce(value);
    if whole == "" || !AllDigits(whole) || !AllDigits(fraction) {
      return None;
    }
    StepsRound(value, scale);
    var truncated := TruncateChecked(whole, fraction, scale);
    if truncated.None? { return None; }
    var out := truncated.value;
    var round := false;
    if scale < |fraction| {
      var discarded := fraction[scale];
      if discarded > '5' {
        round := true;
      } else if discarded == '5' {
        round := (exists i :: scale < i < |fraction| && fraction[i] != '0') || out % 2 == 1;
      }
    }
    var rounded := CheckedAdd(out, if round then 1 else 0);
    result := if rounded.Some? && rounded.value <= I64_MAX then rounded else None;
  }

  // ------------------------------------------------------------------
  // What it means
  // ------------------------------------------------------------------

  /** Accepted exactly when the text is a decimal whose half-even value fits, and the
      answer is that value and no other. */
  lemma ScaledIsTheRoundedValue(value: string, scale: nat, n: nat)
    ensures Scaled(value, scale) == Some(n)
            <==> && IsDecimal(value)
                 && IsHalfEven(n, Numerator(value) * Pow10(scale), Denominator(value))
                 && n <= I64_MAX
  {
    if IsDecimal(value) {
      ShiftMultiplies(Numerator(value), scale);
      OneNearest(n, Numerator(value) * Pow10(scale), Denominator(value));
    }
  }

  /** v is at most w, as numbers. */
  predicate AtMost(v: string, w: string)
    requires IsDecimal(v) && IsDecimal(w)
  {
    Numerator(v) * Denominator(w) <= Numerator(w) * Denominator(v)
  }

  /** Larger amounts never convert to smaller ones, and below an accepted amount every
      decimal is accepted. */
  lemma ScaledIsMonotone(v: string, w: string, scale: nat)
    requires IsDecimal(v) && IsDecimal(w) && AtMost(v, w) && Scaled(w, scale).Some?
    ensures Scaled(v, scale).Some? && Scaled(v, scale).value <= Scaled(w, scale).value
  {
    ShiftedIsMonotone(Numerator(v), Denominator(v), Numerator(w), Denominator(w), scale);
  }

  // ------------------------------------------------------------------
  // Printing
  // ------------------------------------------------------------------

  /** The amount as the budget flag prints it: dollars, a dot, six digits. */
  function PrintMicros(micros: nat): string {
    Decimal(micros / 1_000_000) + "." + Padded(micros % 1_000_000, 6)
  }

  lemma DotAfterDigits(whole: string, fraction: string)
    requires AllDigits(whole)
    ensures SplitOnce(whole + "." + fraction) == (whole, fraction)
  {
    var value := whole + "." + fraction;
    assert value[|whole|] == '.';
    assert forall j :: 0 <= j < |whole| ==> value[j] == whole[j] && IsDigit(value[j]);
    assert DotAt(value) == |whole|;
    assert value[..|whole|] == whole && value[|whole| + 1..] == fraction;
  }

  /** What the flag prints reads back as the same amount, whenever the amount is one the
      reader can hold at all. */
  lemma PrintedMicrosReadBack(micros: nat)
    ensures Scaled(PrintMicros(micros), 6) == if micros <= I64_MAX then Some(micros) else None
  {
    var dollars, rest := micros / 1_000_000, micros % 1_000_000;
    assert Pow10(6) == 1_000_000;
    PaddedReadsBack(rest, 6);
    DecimalReadsBack(dollars);
    DotAfterDigits(Decimal(dollars), Padded(rest, 6));
    NumberOfConcat(Decimal(dollars), Padded(rest, 6));
    ShiftMultiplies(dollars, 6);
    assert Numerator(PrintMicros(micros)) == micros;
    CancelShift(micros, 0, 0, 6);
    HalfEvenOfWhole(micros);
  }

  // ------------------------------------------------------------------
  // Half to even against half up
  // ------------------------------------------------------------------

  /** What a decimal text would convert to if halves were rounded up. */
  function ScaledUp(value: string, scale: nat): Option<nat> {
    if !IsDecimal(value) then None
    else
      var n := HalfUp(Shift(Numerator(value), scale), Denominator(value));
      if n <= I64_MAX then Some(n) else None
  }

  /** The first discarded digit is a five and nothing but zeros follow. */
  predicate IsTie(value: string, scale: nat) {
    var fraction := SplitOnce(value).1;
    scale < |fraction| && fraction[scale] == '5' && forall i :: scale < i < |fraction| ==> fraction[i] == '0'
  }

  /** The value with the discarded digits cut off. */
  function Cut(value: string, scale: nat): nat
    requires IsDecimal(value)
  {
    Truncated(SplitOnce(value).0, SplitOnce(value).1, scale)
  }

  lemma LongFractionRoundsUp(whole: string, fraction: string, scale: nat)
    requires AllDigits(whole) && AllDigits(fraction) && scale < |fraction|
    ensures AllDigits(whole + fraction)
    ensures var out := Truncated(whole, fraction, scale);
            HalfUp(Shift(Number(whole + fraction), scale), Pow10(|fraction|))
              == if fraction[scale] >= '5' then out + 1 else out
  {
    var out, rest := Truncated(whole, fraction, scale), fraction[scale..];
    DigitsSplit(whole, fraction, scale);
    RestAgainstHalf(rest);
    RoundQuotientUp(Number(whole + fraction), out, Number(rest), |rest|, scale);
  }

  /** When every digit is kept nothing is rounded, by either rule. */
  lemma ShortFractionSame(whole: string, fraction: string, scale: nat)
    requires AllDigits(whole) && AllDigits(fraction) && |fraction| <= scale
    ensures AllDigits(whole + fraction)
    ensures HalfUp(Shift(Number(whole + fraction), scale), Pow10(|fraction|))
            == HalfEven(Shift(Number(whole + fraction), scale), Pow10(|fraction|))
  {
    NumberOfConcat(whole, fraction);
    NothingRounded(Number(whole + fraction), |fraction|, scale);
  }

  /** The two rules differ, by one unit, exactly on a tie whose cut value is even. */
  lemma RoundingsDifferExactly(value: string, scale: nat)
    requires IsDecimal(value)
    ensures var a, b := Shift(Numerator(value), scale), Denominator(value);
            HalfUp(a, b) == HalfEven(a, b) + (if IsTie(value, scale) && Cut(value, scale) % 2 == 0 then 1 else 0)
  {
    var (whole, fraction) := SplitOnce(value);
    if |fraction| <= scale {
      ShortFractionSame(whole, fraction, scale);
    } else {
      LongFractionRounds(whole, fraction, scale);
      LongFractionRoundsUp(whole, fraction, scale);
    }
  }

  /** A tie stays on an even amount and leaves an odd one. */
  lemma TiesGoToEven(value: string, scale: nat)
    requires IsDecimal(value) && IsTie(value, scale)
    ensures var out := Cut(value, scale);
            Scaled(value, scale) == (if out % 2 == 0 then (if out <= I64_MAX then Some(out) else None)
                                     else if out < I64_MAX then Some(out + 1) else None)
  {
    StepsRound(value, scale);
  }

  /** The conversion differs from half-up conversion exactly on a tie whose cut value is
      even and in range; then half-up would give one unit more. */
  lemma DiffersFromHalfUpExactly(value: string, scale: nat)
    ensures Scaled(value, scale) != ScaledUp(value, scale)
            <==> IsDecimal(value) && IsTie(value, scale) && Cut(value, scale) % 2 == 0 && Cut(value, scale) <= I64_MAX
    ensures Scaled(value, scale) != ScaledUp(value, scale) ==>
              Scaled(value, scale) == Some(Cut(value, scale)) && ScaledUp(value, scale) == Some(Cut(value, scale) + 1)
  {
    if IsDecimal(value) {
      RoundingsDifferExactly(value, scale);
      if IsTie(value, scale) { StepsRound(value, scale); }
    }
  }

  /** Half a micro-dollar, at the scale costs are read at, is where the two part. */
  lemma HalfAMicroIsNothing()
    ensures Scaled("0.0000005", 6) == Some(0) && ScaledUp("0.0000005", 6) == Some(1)
  {
    var value, fraction := "0.0000005", "0000005";
    DotAfterDigits("0", fraction);
    assert "0" + "." + fraction == value;
    assert fraction[..6] == "000000";
    ZeroExactlyWhenAllZeros("0");
    ZeroExactlyWhenAllZeros("000000");
    ShiftZero(6);
    assert Cut(value, 6) == 0;
    DiffersFromHalfUpExactly(value, 6);
  }
}
