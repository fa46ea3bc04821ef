/** Numbers as runs of decimal digits, and the two ways of rounding a fraction that lies
    halfway between whole numbers. The texts are what money is read from and printed as;
    the rules are half to even, which the conversion follows, and half up, which its caller's
    comment names. Both are defined by the number they pick - the nearest one, and which of
    two - and computed by taking whole units off; everything here is about numbers alone
    (crates/familiar-ai-agent/src/claude_code.rs, lines 92-99 and 338-374). */
module Rounding {
  // ------------------------------------------------------------------
  // Digits
  // ------------------------------------------------------------------

  predicate IsDigit(c: char) {
    '0' <= c <= '9'
  }

  predicate AllDigits(s: string) {
    forall i :: 0 <= i < |s| ==> IsDigit(s[i])
  }

  function DigitValue(c: char): (d: nat)
    requires IsDigit(c)
    ensures d < 10
  {
    c as int - '0' as int
  }

  function Pow10(k: nat): (p: nat)
    ensures p >= 1
  {
    if k == 0 then 1 else 10 * Pow10(k - 1)
  }

  /** The number a run of digits denotes. */
  function Number(s: string): nat
    requires AllDigits(s)
  {
    if s == "" then 0 else Number(s[..|s| - 1]) * 10 + DigitValue(s[|s| - 1])
  }

  /** A number with zeros written behind it: n times ten to the k. */
  function Shift(n: nat, k: nat): nat {
    if k == 0 then n else 10 * Shift(n, k - 1)
  }

  lemma {:induction false} ShiftMultiplies(n: nat, k: nat)
    ensures Shift(n, k) == n * Pow10(k)
  {
    if k > 0 {
      ShiftMultiplies(n, k - 1);
      TenTimes(n, Pow10(k - 1));
    }
  }

  lemma TenTimes(n: nat, p: nat)
    ensures 10 * (n * p) == n * (10 * p)
  {
  }

  lemma {:induction false} ShiftZero(k: nat)
    ensures Shift(0, k) == 0
  {
    if k > 0 { ShiftZero(k - 1); }
  }

  lemma {:induction false} ShiftAdds(a: nat, b: nat, k: nat)
    ensures Shift(a + b, k) == Shift(a, k) + Shift(b, k)
  {
    if k > 0 { ShiftAdds(a, b, k - 1); }
  }

  lemma {:induction false} ShiftTwice(n: nat, j: nat, k: nat)
    ensures Shift(Shift(n, j), k) == Shift(n, j + k)
  {
    if k > 0 { ShiftTwice(n, j, k - 1); }
  }

  lemma {:induction false} ShiftIsBelow(n: nat, j: nat, k: nat)
    requires n < Pow10(j)
    ensures Shift(n, k) < Pow10(j + k) && n <= Shift(n, k)
  {
    if k > 0 { ShiftIsBelow(n, j, k - 1); }
  }

  lemma {:induction false} PowersGrow(a: nat, b: nat)
    requires a <= b
    ensures Pow10(a) <= Pow10(b)
  {
    if a < b { PowersGrow(a, b - 1); }
  }

  lemma {:induction false} NumberOfConcat(a: string, b: string)
    requires AllDigits(a) && AllDigits(b)
    ensures AllDigits(a + b) && Number(a + b) == Shift(Number(a), |b|) + Number(b)
    decreases |b|
  {
    if b == "" {
      assert a + b == a;
    } else {
      NumberOfConcat(a, b[..|b| - 1]);
      assert (a + b)[..|a + b| - 1] == a + b[..|b| - 1];
    }
  }

  lemma {:induction false} NumberIsBelow(s: string)
    requires AllDigits(s)
    ensures Number(s) < Pow10(|s|)
  {
    if s != "" { NumberIsBelow(s[..|s| - 1]); }
  }

  lemma {:induction false} ZeroExactlyWhenAllZeros(s: string)
    requires AllDigits(s)
    ensures Number(s) == 0 <==> forall i :: 0 <= i < |s| ==> s[i] == '0'
  {
    if s != "" {
      ZeroExactlyWhenAllZeros(s[..|s| - 1]);
      assert forall i :: 0 <= i < |s| ==> s[i] == if i < |s| - 1 then s[..|s| - 1][i] else s[|s| - 1];
    }
  }

  function Distance(a: nat, b: nat): nat {
    if a <= b then b - a else a - b
  }

  /** n is the whole number nearest to a/b, the even one of the two when a/b lies halfway. */
  predicate IsHalfEven(n: nat, a: nat, b: nat) {
    2 * Distance(a, n * b) <= b && (2 * Distance(a, n * b) == b ==> n % 2 == 0)
  }

  /** That number, found by taking off two units at a time, which keeps the parity. */
  function HalfEven(a: nat, b: nat): nat
    requires b >= 1
    decreases a
  {
    if a >= 2 * b then HalfEven(a - 2 * b, b) + 2
    else if 2 * a <= b then 0
    else if 2 * a < 3 * b then 1
    else 2
  }

  // ------------------------------------------------------------------
  // Rounding
  // ------------------------------------------------------------------

  // Products, one law each.

  lemma Assoc(a: nat, b: nat, c: nat)
    ensures a * (b * c) == (a * b) * c
  {
  }

  lemma Spread(a: nat, b: nat, c: nat)
    ensures (a + b) * c == a * c + b * c
  {
  }

  lemma MulGrows(a: nat, b: nat, p: nat)
    requires a <= b
    ensures a * p <= b * p
    ensures a < b ==> a * p + p <= b * p
    ensures a + 2 <= b ==> a * p + 2 * p <= b * p
  {
    Spread(a, b - a, p);
    if a < b { Spread(1, b - a - 1, p); }
    if a + 2 <= b { Spread(2, b - a - 2, p); }
  }

  lemma {:induction false} HalfEvenIsNearest(a: nat, b: nat)
    requires b >= 1
    ensures IsHalfEven(HalfEven(a, b), a, b)
    decreases a
  {
    if a >= 2 * b {
      HalfEvenIsNearest(a - 2 * b, b);
      Spread(HalfEven(a - 2 * b, b), 2, b);
    }
  }

  lemma NearestIsOrdered(n: nat, a: nat, m: nat, c: nat, b: nat)
    requires b >= 1 && IsHalfEven(n, a, b) && IsHalfEven(m, c, b) && a <= c
    ensures n <= m
  {
    if m < n { MulGrows(m, n, b); }
  }

  /** The half-even value is the only one. */
  lemma OneNearest(n: nat, a: nat, b: nat)
    requires b >= 1
    ensures IsHalfEven(n, a, b) <==> n == HalfEven(a, b)
  {
    HalfEvenIsNearest(a, b);
    if IsHalfEven(n, a, b) {
      NearestIsOrdered(n, a, HalfEven(a, b), a, b);
      NearestIsOrdered(HalfEven(a, b), a, n, a, b);
    }
  }

  lemma ScaleDistance(a: nat, n: nat, b: nat, p: nat)
    ensures Distance(a * p, n * (b * p)) == Distance(a, n * b) * p
  {
    assert n * (b * p) == (n * b) * p;
    var x := n * b;
    if a <= x { assert x * p - a * p == (x - a) * p; assert x * p >= a * p; }
    else { assert a * p - x * p == (a - x) * p; assert a * p >= x * p; }
  }

  lemma DistanceOrderKept(d: nat, b: nat, p: nat)
    requires p >= 1
    ensures 2 * d <= b ==> 2 * (d * p) <= b * p
    ensures 2 * d < b ==> 2 * (d * p) < b * p
  {
    Assoc(2, d, p);
    if 2 * d <= b { MulGrows(2 * d, b, p); }
  }

  /** Rounding looks at the ratio alone. */
  lemma HalfEvenCancels(a: nat, b: nat, p: nat)
    requires b >= 1 && p >= 1
    ensures b * p >= 1 && HalfEven(a * p, b * p) == HalfEven(a, b)
  {
    var n := HalfEven(a, b);
    HalfEvenIsNearest(a, b);
    MulGrows(1, b, p);
    var d := Distance(a, n * b);
    ScaleDistance(a, n, b, p);
    DistanceOrderKept(d, b, p);
    OneNearest(n, a * p, b * p);
  }

  lemma HalfEvenOfWhole(n: nat)
    ensures HalfEven(n, 1) == n
  {
    OneNearest(n, n, 1);
  }

  lemma {:induction false} CancelTen(a: nat, b: nat)
    requires b >= 1
    ensures HalfEven(10 * a, 10 * b) == HalfEven(a, b)
    decreases a
  {
    if a >= 2 * b { CancelTen(a - 2 * b, b); }
  }

  lemma {:induction false} CancelShift(n: nat, j: nat, k: nat, m: nat)
    ensures HalfEven(Shift(n, j + m), Pow10(k + m)) == HalfEven(Shift(n, j), Pow10(k))
    decreases m
  {
    if m > 0 {
      CancelShift(n, j, k, m - 1);
      CancelTen(Shift(n, j + m - 1), Pow10(k + m - 1));
    }
  }

  lemma TwoUnitsOff(q: nat, b: nat)
    ensures q >= 2 ==> q * b == (q - 2) * b + 2 * b
    ensures q == 0 ==> q * b == 0
    ensures q == 1 ==> q * b == b
  {
    if q >= 2 { Spread(q - 2, 2, b); }
  }

  lemma {:induction false} HalfEvenOfSum(a: nat, q: nat, b: nat, r: nat)
    requires r < b && a == q * b + r
    ensures HalfEven(a, b) == if 2 * r < b || (2 * r == b && q % 2 == 0) then q else q + 1
    decreases q
  {
    TwoUnitsOff(q, b);
    if q >= 2 {
      MulGrows(0, q - 2, b);
      HalfEvenOfSum(a - 2 * b, q - 2, b, r);
    }
  }

  /** The digits left out, measured against half a unit. */
  lemma RestAgainstHalf(rest: string)
    requires AllDigits(rest) && rest != ""
    ensures Number(rest) < Pow10(|rest|)
    ensures 2 * Number(rest) > Pow10(|rest|)
            <==> rest[0] > '5' || (rest[0] == '5' && exists i :: 0 < i < |rest| && rest[i] != '0')
    ensures 2 * Number(rest) == Pow10(|rest|)
            <==> rest[0] == '5' && forall i :: 0 < i < |rest| ==> rest[i] == '0'
  {
    var head, tail := rest[..1], rest[1..];
    assert rest == head + tail;
    NumberOfConcat(head, tail);
    assert head[..0] == "" && Number(head) == DigitValue(rest[0]);
    NumberIsBelow(rest);
    NumberIsBelow(tail);
    ZeroExactlyWhenAllZeros(tail);
    assert forall i :: 0 < i < |rest| ==> rest[i] == tail[i - 1];
    assert forall i :: 0 <= i < |tail| ==> tail[i] == rest[i + 1];
    ShiftMultiplies(Number(head), |tail|);
    LeadingDigit(DigitValue(rest[0]), Pow10(|tail|), Number(tail));
  }

  lemma LeadingDigit(d: nat, p: nat, t: nat)
    requires t < p
    ensures d >= 6 ==> 2 * (d * p + t) > 10 * p
    ensures d <= 4 ==> 2 * (d * p + t) < 10 * p
    ensures d == 5 ==> 2 * (d * p + t) == 10 * p + 2 * t
  {
    if d >= 6 { MulGrows(6, d, p); }
    if d <= 4 { MulGrows(d, 4, p); }
  }

  lemma RoundQuotient(n: nat, out: nat, r: nat, k: nat, scale: nat)
    requires r < Pow10(k) && n == Shift(out, k) + r
    ensures HalfEven(Shift(n, scale), Pow10(scale + k))
            == if 2 * r < Pow10(k) || (2 * r == Pow10(k) && out % 2 == 0) then out else out + 1
  {
    CancelShift(n, 0, k, scale);
    ShiftMultiplies(out, k);
    HalfEvenOfSum(n, out, Pow10(k), r);
  }

  lemma HalfEvenMonotone(a: nat, b: nat, c: nat, d: nat)
    requires b >= 1 && d >= 1 && a * d <= c * b
    ensures HalfEven(a, b) <= HalfEven(c, d)
  {
    HalfEvenCancels(a, b, d);
    HalfEvenCancels(c, d, b);
    assert b * d == d * b;
    HalfEvenIsNearest(a * d, b * d);
    HalfEvenIsNearest(c * b, b * d);
    NearestIsOrdered(HalfEven(a, b), a * d, HalfEven(c, d), c * b, b * d);
  }

  lemma ShiftedIsMonotone(a: nat, b: nat, c: nat, d: nat, scale: nat)
    requires b >= 1 && d >= 1 && a * d <= c * b
    ensures HalfEven(Shift(a, scale), b) <= HalfEven(Shift(c, scale), d)
  {
    var p := Pow10(scale);
    ShiftMultiplies(a, scale);
    ShiftMultiplies(c, scale);
    SwapFactors(a, p, d);
    SwapFactors(c, p, b);
    MulGrows(a * d, c * b, p);
    HalfEvenMonotone(a * p, b, c * p, d);
  }

  lemma SwapFactors(a: nat, p: nat, d: nat)
    ensures (a * p) * d == (a * d) * p
  {
    Assoc(a, p, d);
    Assoc(a, d, p);
  }

  // ------------------------------------------------------------------
  // Printing
  // ------------------------------------------------------------------

  function DigitChar(d: nat): (c: char)
    requires d < 10
    ensures IsDigit(c) && DigitValue(c) == d
  {
    '0' + d as char
  }

  function Decimal(n: nat): (s: string)
    ensures s != "" && AllDigits(s)
  {
    if n < 10 then [DigitChar(n)] else Decimal(n / 10) + [DigitChar(n % 10)]
  }

  function Zeros(k: nat): (s: string)
    ensures |s| == k && AllDigits(s) && forall i :: 0 <= i < k ==> s[i] == '0'
  {
    seq(k, _ => '0')
  }

  /** Decimal digits, filled with zeros to a least width. */
  function Padded(n: nat, width: nat): (s: string)
    ensures AllDigits(s)
  {
    Zeros(if |Decimal(n)| < width then width - |Decimal(n)| else 0) + Decimal(n)
  }

  lemma {:induction false} DecimalReadsBack(n: nat)
    ensures Number(Decimal(n)) == n
  {
    if n < 10 {
      assert Decimal(n)[..0] == "";
    } else {
      DecimalReadsBack(n / 10);
      assert Decimal(n)[..|Decimal(n)| - 1] == Decimal(n / 10);
    }
  }

  lemma {:induction false} DecimalIsShort(n: nat, width: nat)
    requires n < Pow10(width) && width >= 1
    ensures |Decimal(n)| <= width
  {
    if n >= 10 {
      assert width >= 2;
      DecimalIsShort(n / 10, width - 1);
    }
  }

  lemma PaddedReadsBack(n: nat, width: nat)
    requires n < Pow10(width) && width >= 1
    ensures |Padded(n, width)| == width && Number(Padded(n, width)) == n
  {
    DecimalIsShort(n, width);
    DecimalReadsBack(n);
    var zeros := Zeros(width - |Decimal(n)|);
    NumberOfConcat(zeros, Decimal(n));
    ZeroExactlyWhenAllZeros(zeros);
    ShiftZero(|Decimal(n)|);
  }

  // ------------------------------------------------------------------
  // Half to even against half up
  // ------------------------------------------------------------------

  /** n is the whole number nearest to a/b, the larger of the two when a/b lies halfway. */
  predicate IsHalfUp(n: nat, a: nat, b: nat) {
    2 * Distance(a, n * b) <= b && (2 * Distance(a, n * b) == b ==> n * b >= a)
  }

  function HalfUp(a: nat, b: nat): nat
    requires b >= 1
    decreases a
  {
    if a >= b then HalfUp(a - b, b) + 1 else if 2 * a < b then 0 else 1
  }

  lemma {:induction false} HalfUpIsNearest(a: nat, b: nat)
    requires b >= 1
    ensures IsHalfUp(HalfUp(a, b), a, b)
    decreases a
  {
    if a >= b {
      HalfUpIsNearest(a - b, b);
      Spread(HalfUp(a - b, b), 1, b);
    }
  }

  lemma {:induction false} HalfUpOfSum(a: nat, q: nat, b: nat, r: nat)
    requires r < b && a == q * b + r
    ensures HalfUp(a, b) == if 2 * r < b then q else q + 1
    decreases q
  {
    if q == 0 {
      TwoUnitsOff(q, b);
    } else {
      Spread(q - 1, 1, b);
      MulGrows(0, q - 1, b);
      HalfUpOfSum(a - b, q - 1, b, r);
    }
  }

  lemma {:induction false} CancelTenUp(a: nat, b: nat)
    requires b >= 1
    ensures HalfUp(10 * a, 10 * b) == HalfUp(a, b)
    decreases a
  {
    if a >= b { CancelTenUp(a - b, b); }
  }

  lemma {:induction false} CancelShiftUp(n: nat, j: nat, k: nat, m: nat)
    ensures HalfUp(Shift(n, j + m), Pow10(k + m)) == HalfUp(Shift(n, j), Pow10(k))
    decreases m
  {
    if m > 0 {
      CancelShiftUp(n, j, k, m - 1);
      CancelTenUp(Shift(n, j + m - 1), Pow10(k + m - 1));
    }
  }

  lemma RoundQuotientUp(n: nat, out: nat, r: nat, k: nat, scale: nat)
    requires r < Pow10(k) && n == Shift(out, k) + r
    ensures HalfUp(Shift(n, scale), Pow10(scale + k)) == if 2 * r < Pow10(k) then out else out + 1
  {
    CancelShiftUp(n, 0, k, scale);
    ShiftMultiplies(out, k);
    HalfUpOfSum(n, out, Pow10(k), r);
  }

  lemma {:induction false} HalvesOfWhole(n: nat)
    ensures HalfUp(n, 1) == HalfEven(n, 1) == n
  {
    HalfEvenOfWhole(n);
    HalfUpOfSum(n, n, 1, 0);
  }

  lemma NothingRounded(n: nat, digits: nat, scale: nat)
    requires digits <= scale
    ensures HalfUp(Shift(n, scale), Pow10(digits)) == Shift(n, scale - digits)
    ensures HalfEven(Shift(n, scale), Pow10(digits)) == Shift(n, scale - digits)
  {
    CancelShift(n, scale - digits, 0, digits);
    CancelShiftUp(n, scale - digits, 0, digits);
    HalvesOfWhole(Shift(n, scale - digits));
  }
}
