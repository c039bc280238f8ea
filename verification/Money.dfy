/** Money as text and as cents: internal/common/amount.go. */
module Money {
  import opened Wrappers
  import opened Float64

  const INT64_MAX := 0x7fff_ffff_ffff_ffff
  const INT64_MIN := -0x8000_0000_0000_0000
  const TWO_64 := 0x1_0000_0000_0000_0000

  // ----- Decimal text -----

  predicate IsDigit(ch: char) { '0' <= ch <= '9' }

  predicate AllDigits(s: string) { forall i | 0 <= i < |s| :: IsDigit(s[i]) }

  function DigitValue(ch: char): (d: int)
    requires IsDigit(ch)
    ensures 0 <= d <= 9
  {
    ch as int - '0' as int
  }

  /** The number a run of digits denotes; the empty run denotes zero. */
  function DigitsValue(s: string): (n: nat)
    requires AllDigits(s)
  {
    if s == "" then 0 else 10 * DigitsValue(s[..|s| - 1]) + DigitValue(s[|s| - 1])
  }

  /** The fraction that digits after the point denote. */
  function FractionValue(s: string): (f: real)
    requires AllDigits(s)
    ensures 0.0 <= f < 1.0
  {
    if s == "" then 0.0 else (DigitValue(s[0]) as real + FractionValue(s[1..])) / 10.0
  }

  datatype Split = Split(whole: string, fraction: Option<string>)

  /** strings.SplitN(s, ".", 2) */
  function SplitAtPoint(s: string): Split {
    if s == "" then Split("", None)
    else if s[0] == '.' then Split("", Some(s[1..]))
    else
      var rest := SplitAtPoint(s[1..]);
      Split([s[0]] + rest.whole, rest.fraction)
  }

  predicate HasSign(s: string) { s != "" && (s[0] == '-' || s[0] == '+') }

  predicate IsNegative(s: string) { s != "" && s[0] == '-' }

  function Unsigned(s: string): string { if HasSign(s) then s[1..] else s }

  /** An optional sign, at least one digit, and perhaps a point followed by digits. */
  predicate IsDecimal(s: string) {
    var p := SplitAtPoint(s);
    && Unsigned(p.whole) != "" && AllDigits(Unsigned(p.whole))
    && (p.fraction.Some? ==> AllDigits(p.fraction.value))
  }

  /** The exact number a decimal text denotes. */
  function DecimalValue(s: string): real
    requires IsDecimal(s)
  {
    Signed(IsNegative(s), DigitsValue(Unsigned(SplitAtPoint(s).whole)), FractionOf(s))
  }

  function FractionOf(s: string): string {
    SplitAtPoint(s).fraction.GetOr("")
  }

  function Signed(negative: bool, whole: nat, fraction: string): real
    requires AllDigits(fraction)
  {
    var size := whole as real + FractionValue(fraction);
    if negative then -size else size
  }

  /** Nearest integer, halves away from zero: how money is rounded. */
  function RoundHalfAway(r: real): int {
    if r >= 0.0 then (r + 0.5).Floor else -((-r + 0.5).Floor)
  }

  // ----- Go's int64 arithmetic -----

  /** Two's complement wrap-around. */
  function Wrap64(x: int): (w: int)
    ensures INT64_MIN <= w <= INT64_MAX
  {
    (x - INT64_MIN) % TWO_64 + INT64_MIN
  }

  lemma WrapIsIdentity(x: int)
    ensures Wrap64(x) == x <==> INT64_MIN <= x <= INT64_MAX
  {
  }

  lemma WrapPlus(x: int, y: int)
    ensures Wrap64(Wrap64(x) + y) == Wrap64(x + y)
    ensures Wrap64(-Wrap64(x)) == Wrap64(-x)
  {
    var k := (x - INT64_MIN) / TWO_64;
    assert Wrap64(x) == x - k * TWO_64;
    WrapPeriod(x + y, -k);
    WrapPeriod(-x, k);
  }

  lemma WrapPeriod(x: int, k: int)
    ensures Wrap64(x + k * TWO_64) == Wrap64(x)
  {
    var q := (x - INT64_MIN) / TWO_64;
    var m := (x - INT64_MIN) % TWO_64;
    var k' := (x + k * TWO_64 - INT64_MIN) / TWO_64;
    var m' := (x + k * TWO_64 - INT64_MIN) % TWO_64;
    assert (q + k - k') * TWO_64 == m' - m;
  }

  /** strconv.ParseInt(s, 10, 64); None stands for its error. */
  function ParseInt64(s: string): Option<int> {
    var digits := Unsigned(s);
    if digits == "" || !AllDigits(digits) then None
    else
      var n: int := if IsNegative(s) then 0 - DigitsValue(digits) else DigitsValue(digits);
      if INT64_MIN <= n <= INT64_MAX then Some(n) else None
  }

  predicate IsSpace(ch: char) {
    ch == ' ' || ch == '\t' || ch == '\n' || ch == '\r' || ch as int == 11 || ch as int == 12
  }

  /** strings.TrimSpace on ASCII text. */
  function TrimSpace(s: string): string {
    if s != "" && IsSpace(s[0]) then TrimSpace(s[1..])
    else if s != "" && IsSpace(s[|s| - 1]) then TrimSpace(s[..|s| - 1])
    else s
  }

  // ----- Parsing -----

  datatype AmountError = EmptyAmount | BadIntegerPart | BadFractionPart

  /** What parsing a decimal text should give: its value times 100, rounded half
      away from zero, as an int64. */
  function CentsOf(s: string): int
    requires IsDecimal(s)
  {
    Wrap64(RoundHalfAway(100.0 * DecimalValue(s)))
  }

  /** The digits after the point that the parser reads as a number. */
  function Kept(fraction: Option<string>): string {
    if fraction.None? then "" else if |fraction.value| < 2 then fraction.value else fraction.value[..2]
  }

  predicate BadKept(fraction: Option<string>) {
    Kept(fraction) != "" && ParseInt64(Kept(fraction)).None?
  }

  /** whole.fraction in cents, rounding on the third digit. */
  function Magnitude(whole: int, fraction: string): int
    requires AllDigits(fraction)
  {
    100 * whole +
    if fraction == "" then 0
    else if |fraction| == 1 then 10 * DigitValue(fraction[0])
    else 10 * DigitValue(fraction[0]) + DigitValue(fraction[1])
         + if |fraction| > 2 && fraction[2] >= '5' then 1 else 0
  }

  /** Looking at one digit past the cents is enough to round half away from zero. */
  lemma ThirdDigitDecides(whole: nat, fraction: string)
    requires AllDigits(fraction)
    ensures RoundHalfAway(100.0 * (whole as real + FractionValue(fraction))) == Magnitude(whole, fraction)
  {
    if |fraction| >= 1 {
      var rest := fraction[1..];
      if |rest| >= 1 {
        var tail := rest[1..];
        assert FractionValue(fraction) * 100.0
            == (10 * DigitValue(fraction[0]) + DigitValue(fraction[1])) as real + FractionValue(tail);
        if |tail| >= 1 {
          assert tail[0] == fraction[2];
          assert FractionValue(tail) == (DigitValue(tail[0]) as real + FractionValue(tail[1..])) / 10.0;
        }
      }
    }
  }

  lemma ExactCents(negative: bool, whole: nat, fraction: string)
    requires AllDigits(fraction)
    ensures var m := Magnitude(whole, fraction);
            RoundHalfAway(100.0 * Signed(negative, whole, fraction)) == if negative then -m else m
  {
    ThirdDigitDecides(whole, fraction);
    RoundingIsOdd(100.0 * (whole as real + FractionValue(fraction)));
  }

  lemma RoundingIsOdd(r: real)
    ensures RoundHalfAway(-r) == -RoundHalfAway(r)
  {
  }

  lemma ShortDigits(f: string)
    requires AllDigits(f) && 1 <= |f| <= 2
    ensures ParseInt64(f) == Some(if |f| == 1 then DigitValue(f[0])
                                  else 10 * DigitValue(f[0]) + DigitValue(f[1]))
  {
    assert IsDigit(f[0]);
    var front := f[..|f| - 1];
    if |f| == 2 {
      assert IsDigit(f[1]);
      assert front[..0] == "" && front[0] == f[0];
      assert DigitsValue(front) == DigitValue(f[0]);
    }
    assert DigitsValue(f) == 10 * DigitsValue(front) + DigitValue(f[|f| - 1]);
  }

  /** The fraction part as both branches of the parser add it to a running total. */
  method AddFraction(start: int, ghost exact: int, fraction: string) returns (r: Option<int>)
    requires start == Wrap64(exact)
    ensures r.None? <==> BadKept(Some(fraction))
    ensures r.Some? && AllDigits(fraction) ==> r.value == Wrap64(exact + Magnitude(0, fraction))
  {
    var cents := start;
    if |fraction| == 1 {
      var frac := ParseInt64(fraction);
      if frac.None? { return None; }
      WrapPlus(exact, frac.value * 10);
      cents := Wrap64(cents + frac.value * 10);
      if AllDigits(fraction) { ShortDigits(fraction); }
    } else if |fraction| > 1 {
      var frac := ParseInt64(fraction[..2]);
      if frac.None? { return None; }
      WrapPlus(exact, frac.value);
      cents := Wrap64(cents + frac.value);
      if AllDigits(fraction) { ShortDigits(fraction[..2]); }
      if |fraction| > 2 && fraction[2] >= '5' {
        WrapPlus(exact + frac.value, 1);
        cents := Wrap64(cents + 1);
      }
    }
    r := Some(cents);
  }

  /** The value the branches on the sign and on the fraction arrive at. */
  method CentsOfParts(intPart: int, negative: bool, fraction: Option<string>) returns (r: Option<int>)
    ensures r.None? <==> BadKept(fraction)
    ensures r.Some? && AllDigits(fraction.GetOr("")) ==>
              r.value == Wrap64(if negative then -Magnitude(-intPart, fraction.GetOr(""))
                                else Magnitude(intPart, fraction.GetOr("")))
  {
    var cents := Wrap64(intPart * 100);
    if fraction.Some? {
      var sum := AddFraction(cents, intPart * 100, fraction.value);
      if sum.None? { return None; }
      cents := sum.value;
    }
    if !negative { return Some(cents); }

    var absCents := Wrap64(Wrap64(-intPart) * 100);
    NegatedTimes100(intPart);
    if fraction.Some? {
      var sum := AddFraction(absCents, -intPart * 100, fraction.value);
      absCents := sum.value;
    }
    if fraction.None? || AllDigits(fraction.value) {
      WrapPlus(Magnitude(-intPart, fraction.GetOr("")), 0);
    }
    r := Some(Wrap64(-absCents));
  }

  lemma ValueOfParts(s: string)
    requires IsDecimal(s)
    ensures AllDigits(FractionOf(s))
    ensures var m := Magnitude(DigitsValue(Unsigned(SplitAtPoint(s).whole)), FractionOf(s));
            RoundHalfAway(100.0 * DecimalValue(s)) == if IsNegative(s) then -m else m
  {
    ExactCents(IsNegative(s), DigitsValue(Unsigned(SplitAtPoint(s).whole)), FractionOf(s));
  }

  lemma PartsGiveCents(s: string)
    requires IsDecimal(s) && ParseInt64(SplitAtPoint(s).whole).Some?
    ensures var i := ParseInt64(SplitAtPoint(s).whole).value;
            AllDigits(FractionOf(s)) &&
            RoundHalfAway(100.0 * DecimalValue(s))
            == if IsNegative(s) then -Magnitude(-i, FractionOf(s)) else Magnitude(i, FractionOf(s))
  {
    SignOfWhole(s);
    ParsedWhole(SplitAtPoint(s).whole);
    ValueOfParts(s);
  }

  lemma ParsedWhole(whole: string)
    requires ParseInt64(whole).Some?
    ensures AllDigits(Unsigned(whole))
    ensures ParseInt64(whole).value == if IsNegative(whole) then 0 - DigitsValue(Unsigned(whole)) as int
                                       else DigitsValue(Unsigned(whole))
  {
  }

  lemma SignOfWhole(s: string)
    requires SplitAtPoint(s).whole != ""
    ensures IsNegative(s) == IsNegative(SplitAtPoint(s).whole)
  {
  }

  method DecimalAmountToCents(value: string) returns (r: Result<int, AmountError>)
    ensures var s := TrimSpace(value);
            && (r == Failure(EmptyAmount) <==> s == "")
            && (r == Failure(BadIntegerPart) <==> s != "" && ParseInt64(SplitAtPoint(s).whole).None?)
            && (r == Failure(BadFractionPart) <==>
                && s != "" && ParseInt64(SplitAtPoint(s).whole).Some?
                && BadKept(SplitAtPoint(s).fraction))
            && (r.Success? && IsDecimal(s) ==> r.value == CentsOf(s))
  {
    var normalized := TrimSpace(value);
    if normalized == "" { return Failure(EmptyAmount); }

    var parts := SplitAtPoint(normalized);
    var parsed := ParseInt64(parts.whole);
    if parsed.None? { return Failure(BadIntegerPart); }
    var cents := CentsOfParts(parsed.value, IsNegative(normalized), parts.fraction);
    if cents.None? { return Failure(BadFractionPart); }
    r := Success(cents.value);
    if IsDecimal(normalized) { PartsGiveCents(normalized); }
  }

  lemma NegatedTimes100(x: int)
    ensures Wrap64(Wrap64(-x) * 100) == Wrap64(-x * 100)
  {
    var k := (-x - INT64_MIN) / TWO_64;
    assert Wrap64(-x) == -x - k * TWO_64;
    WrapPeriod(-x * 100, -100 * k);
  }

  /** The parser is exact precisely when the rounded value is an int64. */
  lemma ExactWhenInt64(s: string)
    requires IsDecimal(s)
    ensures var exact := RoundHalfAway(100.0 * DecimalValue(s));
            CentsOf(s) == exact <==> INT64_MIN <= exact <= INT64_MAX
  {
    WrapIsIdentity(RoundHalfAway(100.0 * DecimalValue(s)));
  }

  /** A bound on the integer part that rules wrap-around out, whatever the fraction. */
  lemma ExactBelowBound(s: string)
    requires IsDecimal(s)
    requires DigitsValue(Unsigned(SplitAtPoint(s).whole)) <= 92233720368547757
    ensures ParseInt64(SplitAtPoint(s).whole).Some?
    ensures CentsOf(s) == RoundHalfAway(100.0 * DecimalValue(s))
  {
    ExactCents(IsNegative(s), DigitsValue(Unsigned(SplitAtPoint(s).whole)), FractionOf(s));
    ExactWhenInt64(s);
  }

  // ----- Printing -----

  function DigitChar(d: int): char
    requires 0 <= d <= 9
  {
    '0' + d as char
  }

  /** Decimal digits without leading zeros. */
  function Digits(n: nat): (s: string)
    ensures s != "" && AllDigits(s)
  {
    if n < 10 then [DigitChar(n)] else Digits(n / 10) + [DigitChar(n % 10)]
  }

  /** n hundredths with exactly two digits after the point. */
  function Hundredths(n: nat): string {
    Digits(n / 100) + "." + [DigitChar(n / 10 % 10), DigitChar(n % 10)]
  }

  /** The canonical text of an amount, which is also what PostgreSQL prints for
      a NUMERIC(10,2) column. */
  function CentsText(cents: int): string {
    if cents < 0 then "-" + Hundredths(-cents) else Hundredths(cents)
  }

  /** strconv.FormatFloat(q, 'f', 2, 64): the exact binary value of q, rounded to
      two places, ties to even. */
  function FormatFixed2(q: real): string {
    if q < 0.0 then
      (NonNegativeRound(-q); "-" + Hundredths(RoundHalfEven(-q * 100.0)))
    else
      (NonNegativeRound(q); Hundredths(RoundHalfEven(q * 100.0)))
  }

  lemma NonNegativeRound(q: real)
    requires q >= 0.0
    ensures RoundHalfEven(q * 100.0) >= 0
  {
  }

  function CentsToDecimal(cents: int): string {
    FormatFixed2(ToDouble(ToDouble(cents as real) / 100.0))
  }

  /** NormalizeAmount reformats whatever strconv.ParseFloat accepts.  Plain decimal
      text is rounded to the nearest double, a zero keeping its sign; `otherSyntax` stands for the rest of
      ParseFloat's grammar, None being its error. */
  function NormalizeAmount(amount: string, otherSyntax: string -> Option<real>): string {
    if IsDecimal(amount) && IsNegative(amount) && DecimalValue(amount) == 0.0 then "-0.00"
    else if IsDecimal(amount) then FormatFixed2(ToDouble(DecimalValue(amount)))
    else match otherSyntax(amount)
         case None => amount
         case Some(q) => FormatFixed2(q)
  }

  lemma {:induction false} DigitsRoundTrip(n: nat)
    ensures DigitsValue(Digits(n)) == n
  {
    var s := Digits(n);
    if n >= 10 {
      DigitsRoundTrip(n / 10);
      assert s[..|s| - 1] == Digits(n / 10);
    } else {
      assert s[..0] == "";
    }
  }

  lemma {:induction false} SplitOfJoin(whole: string, fraction: string)
    requires '.' !in whole
    ensures SplitAtPoint(whole + "." + fraction) == Split(whole, Some(fraction))
  {
    var s := whole + "." + fraction;
    if whole == "" {
      assert s[1..] == fraction;
    } else {
      SplitOfJoin(whole[1..], fraction);
      assert s[1..] == whole[1..] + "." + fraction;
      assert [whole[0]] + whole[1..] == whole;
    }
  }

  /** The canonical text is a decimal, and it denotes exactly that many hundredths. */
  lemma CanonicalText(cents: int)
    ensures IsDecimal(CentsText(cents))
    ensures DecimalValue(CentsText(cents)) == cents as real / 100.0
    ensures IsNegative(CentsText(cents)) <==> cents < 0
    ensures var n := if cents < 0 then -cents else cents;
            DigitsValue(Unsigned(SplitAtPoint(CentsText(cents)).whole)) == n / 100
  {
    var n := if cents < 0 then -cents else cents;
    var digits := Digits(n / 100);
    var tail := [DigitChar(n / 10 % 10), DigitChar(n % 10)];
    var whole := if cents < 0 then "-" + digits else digits;
    assert IsDigit(digits[0]);
    assert CentsText(cents) == whole + "." + tail;
    SplitOfJoin(whole, tail);
    assert Unsigned(whole) == digits;
    DigitsRoundTrip(n / 100);
    TwoDigits(n);
  }

  lemma TwoDigits(n: nat)
    ensures var tail := [DigitChar(n / 10 % 10), DigitChar(n % 10)];
            AllDigits(tail) && (n / 100) as real + FractionValue(tail) == n as real / 100.0
  {
    var tail := [DigitChar(n / 10 % 10), DigitChar(n % 10)];
    assert tail[1..][1..] == "";
    assert FractionValue(tail[1..]) == (n % 10) as real / 10.0;
    assert n == 100 * (n / 100) + 10 * (n / 10 % 10) + n % 10;
  }

  /** Parsing the canonical text of any int64 number of cents gives it back. */
  lemma TextRoundTrip(cents: int)
    requires INT64_MIN <= cents <= INT64_MAX
    ensures IsDecimal(CentsText(cents)) && CentsOf(CentsText(cents)) == cents
    ensures ParseInt64(SplitAtPoint(CentsText(cents)).whole).Some?
  {
    CanonicalText(cents);
    assert RoundHalfAway(cents as real) == cents;
    ExactWhenInt64(CentsText(cents));
  }

  // ----- Where printing through a double is exact -----

  /** Up to this many cents every quotient survives printing: 100 * 2^46. */
  const EXACT_CENTS := 7036874417766400

  lemma QuotientAccurate(c: int)
    requires 0 < c <= EXACT_CENTS
    ensures var q := Nearest(c as real / 100.0);
            q > 0.0 && RoundHalfEven(q * 100.0) == c
  {
    var x := c as real / 100.0;
    assert Halved(TWO_53, 7) == 70368744177664.0 && Halved(0.5, 7) == 0.00390625 by {
      assert Halved(TWO_53, 3) == TWO_53 / 8.0;
      assert Halved(0.5, 3) == 0.0625;
      assert Halved(TWO_53, 5) == TWO_53 / 32.0;
      assert Halved(0.5, 5) == 0.015625;
    }
    if c < EXACT_CENTS {
      HalfUlp(x, 7);
      RelativeError(x);
    } else {
      PositiveIntegersExact(70368744177664);
    }
  }

  /** The quotient of a positive number of cents, printed with either sign. */
  lemma PrintingQuotient(c: int, x: real)
    requires 0 < c <= EXACT_CENTS && x == c as real / 100.0
    ensures FormatFixed2(ToDouble(x)) == Hundredths(c)
    ensures FormatFixed2(ToDouble(-x)) == "-" + Hundredths(c)
  {
    QuotientAccurate(c);
    hide Nearest, RoundHalfEven, Hundredths;
  }

  lemma PrintingExact(c: int)
    requires -EXACT_CENTS <= c <= EXACT_CENTS
    ensures CentsToDecimal(c) == CentsText(c)
    ensures FormatFixed2(ToDouble(c as real / 100.0)) == CentsText(c)
  {
    IntegersExact(c);
    PrintingAny(c, c as real / 100.0);
    hide ToDouble, FormatFixed2, CentsText;
  }

  lemma PrintingAny(c: int, x: real)
    requires -EXACT_CENTS <= c <= EXACT_CENTS && x == c as real / 100.0
    ensures FormatFixed2(ToDouble(x)) == CentsText(c)
  {
    hide Nearest, RoundHalfEven, Hundredths, FormatFixed2, ToDouble;
    if c > 0 {
      PrintingQuotient(c, x);
    } else if c < 0 {
      PrintingQuotient(-c, -x);
    } else {
      PrintingZero();
    }
  }

  lemma PrintingZero()
    ensures FormatFixed2(ToDouble(0.0)) == Hundredths(0)
  {
  }

  /** One cent further the quotient lands on the wrong side: it prints a cent too many. */
  lemma FirstLoss()
    ensures CentsToDecimal(EXACT_CENTS + 1) == CentsText(EXACT_CENTS + 2)
  {
    var c := EXACT_CENTS + 1;
    IntegersExact(c);
    var x := c as real / 100.0;
    assert x == 70368744177664.01;
    QuotientChain(x);
  }

  lemma QuotientChain(x: real)
    requires x == 70368744177664.01
    ensures Nearest(x) == 70368744177664.015625
  {
    assert Nearest(x) == Nearest(2.0 * x) / 2.0;
    assert Nearest(2.0 * x) == Nearest(4.0 * x) / 2.0;
    assert Nearest(4.0 * x) == Nearest(8.0 * x) / 2.0;
    assert Nearest(8.0 * x) == Nearest(16.0 * x) / 2.0;
    assert Nearest(16.0 * x) == Nearest(32.0 * x) / 2.0;
    assert Nearest(32.0 * x) == Nearest(64.0 * x) / 2.0;
    assert 64.0 * x == TWO_52 + 0.64;
    assert RoundHalfEven(64.0 * x) == 4503599627370497;
  }

  /** Further out what is printed is off by less than half, and keeps its sign. */
  lemma PrintsLarge(c: int) returns (n: int)
    requires c < -EXACT_CENTS || c > EXACT_CENTS
    ensures CentsToDecimal(c) == CentsText(n)
    ensures if c > 0 then n > c / 2 else n < (c + 1) / 2
  {
    if c > 0 {
      n := PositivePrintsLarge(c);
    } else {
      n := PositivePrintsLarge(-c);
      n := -n;
    }
  }

  lemma PositivePrintsLarge(c: int) returns (n: int)
    requires c > EXACT_CENTS
    ensures n > c / 2
    ensures CentsToDecimal(c) == CentsText(n)
    ensures CentsToDecimal(-c) == CentsText(-n)
  {
    hide Nearest, RoundHalfEven, Hundredths, FormatFixed2;
    var x := Nearest(c as real);
    RelativeError(c as real);
    var y := x / 100.0;
    LargeAmount(c, x, y);
    var q := Nearest(y);
    RelativeError(y);
    LargeQuotient(c, y, q);
    n := RoundHalfEven(q * 100.0);
    PrintsEither(q, n);
    assert (-c) as real == -(c as real) && -x / 100.0 == -y;
  }

  lemma PrintsEither(q: real, n: int)
    requires q > 0.0 && n == RoundHalfEven(q * 100.0) && n > 0
    ensures FormatFixed2(q) == CentsText(n) && FormatFixed2(-q) == CentsText(-n)
  {
    hide RoundHalfEven, Hundredths;
    assert --q == q;
  }

  lemma LargeAmount(c: int, x: real, y: real)
    requires c > EXACT_CENTS && -(c as real) <= (x - c as real) * TWO_53 && y == x / 100.0
    ensures x > 0.0 && y > c as real * 0.009
  {
  }

  lemma LargeQuotient(c: int, y: real, q: real)
    requires c > EXACT_CENTS && y > c as real * 0.009 && -y <= (q - y) * TWO_53
    ensures q > 0.0 && q * 100.0 > (c / 2) as real + 1.0
  {
    assert q >= y * 0.9;
  }

  /** Parsing the printed text gives c back. */
  predicate RoundTrips(c: int) {
    IsDecimal(CentsToDecimal(c)) && CentsOf(CentsToDecimal(c)) == c
  }

  lemma CentsRoundTrip(c: int)
    requires -EXACT_CENTS <= c <= EXACT_CENTS
    ensures RoundTrips(c)
  {
    PrintingExact(c);
    TextRoundTrip(c);
  }

  /** The two conversions undo each other on a symmetric range of cents exactly
      when that range stays within 100 * 2^46. */
  lemma RoundTripRange(bound: int)
    requires 0 <= bound <= INT64_MAX
    ensures (forall c: int | -bound <= c <= bound :: RoundTrips(c)) <==> bound <= EXACT_CENTS
  {
    if bound <= EXACT_CENTS {
      forall c: int | -bound <= c <= bound ensures RoundTrips(c) { CentsRoundTrip(c); }
    } else {
      FirstLoss();
      TextRoundTrip(EXACT_CENTS + 2);
      assert !RoundTrips(EXACT_CENTS + 1);
    }
  }

  lemma NormalizeDecimal(s: string, value: real, otherSyntax: string -> Option<real>)
    requires IsDecimal(s) && DecimalValue(s) == value && (IsNegative(s) ==> value != 0.0)
    ensures NormalizeAmount(s, otherSyntax) == FormatFixed2(ToDouble(value))
  {
  }

  /** Canonical text in that range is a fixed point of NormalizeAmount. */
  lemma NormalizeKeepsCanonical(c: int, otherSyntax: string -> Option<real>)
    requires -EXACT_CENTS <= c <= EXACT_CENTS
    ensures NormalizeAmount(CentsText(c), otherSyntax) == CentsText(c)
  {
    var text := CentsText(c);
    CanonicalText(c);
    NormalizeDecimal(text, c as real / 100.0, otherSyntax);
    PrintingExact(c);
  }
  function Abs(x: real): real { if x < 0.0 then -x else x }

  /** Two places are printed: the nearest hundredths, the even one of two that are equally
      near, after a minus sign exactly if the number is negative. */
  lemma PrintsNearest(q: real) returns (n: nat)
    ensures FormatFixed2(q) == (if q < 0.0 then "-" + Hundredths(n) else Hundredths(n))
    ensures Abs(100.0 * Abs(q) - n as real) <= 0.5
    ensures Abs(100.0 * Abs(q) - n as real) == 0.5 ==> n % 2 == 0
  {
    hide Hundredths, RoundHalfEven;
    NonNegativeRound(Abs(q));
    TiesToEven(Abs(q) * 100.0);
    n := RoundHalfEven(Abs(q) * 100.0);
  }

  /** What NormalizeAmount answers.  Decimal text keeps its sign, even before a zero, and is
      printed to within half a cent and one double's rounding of its value; text that
      ParseFloat refuses comes back as it was. */
  lemma NormalizeAnswers(s: string, otherSyntax: string -> Option<real>) returns (n: nat)
    ensures IsDecimal(s) ==>
              var v := DecimalValue(s);
              && NormalizeAmount(s, otherSyntax) == (if IsNegative(s) then "-" + Hundredths(n) else Hundredths(n))
              && Abs(100.0 * Abs(v) - n as real) <= 0.5 + 100.0 * Abs(v) / TWO_53
    ensures !IsDecimal(s) && otherSyntax(s).None? ==> NormalizeAmount(s, otherSyntax) == s
    ensures !IsDecimal(s) && otherSyntax(s).Some? ==>
              var q := otherSyntax(s).value;
              && NormalizeAmount(s, otherSyntax) == (if q < 0.0 then "-" + Hundredths(n) else Hundredths(n))
              && Abs(100.0 * Abs(q) - n as real) <= 0.5
  {
    hide FormatFixed2, Hundredths, ToDouble, DecimalValue;
    n := 0;
    if IsDecimal(s) {
      var v := DecimalValue(s);
      SignedText(s);
      if v == 0.0 {
        ZeroPrinted();
      } else {
        n := PrintsNearest(ToDouble(v));
        RoundedClose(v);
      }
    } else if otherSyntax(s).Some? {
      n := PrintsNearest(otherSyntax(s).value);
    }
  }

  lemma SignedText(s: string)
    requires IsDecimal(s)
    ensures if IsNegative(s) then DecimalValue(s) <= 0.0 else DecimalValue(s) >= 0.0
  {
  }

  lemma ZeroPrinted()
    ensures ToDouble(0.0) == 0.0 && FormatFixed2(0.0) == Hundredths(0) && "-0.00" == "-" + Hundredths(0)
  {
    assert Digits(0) == "0";
    assert Hundredths(0) == "0.00";
  }

  /** Rounding to a double keeps the sign and errs by at most 2^-53 of the value. */
  lemma RoundedClose(v: real)
    requires v != 0.0
    ensures (ToDouble(v) < 0.0 <==> v < 0.0) && Abs(Abs(ToDouble(v)) - Abs(v)) <= Abs(v) / TWO_53
  {
    hide Nearest;
    RelativeError(Abs(v));
  }
}
