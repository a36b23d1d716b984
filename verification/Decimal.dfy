/** Exact decimal text for exchange rates and provider amounts, and the half-up currency conversion. */
module Decimal {
  import opened Arithmetic
  import opened Wrappers

  datatype Error = InvalidRate | NonPositiveRate | NegativeAmount

  const SCALE := 1_000_000

  // ---------- Digits ----------

  predicate IsDigit(c: char) { '0' <= c <= '9' }

  predicate AllDigits(s: string) { forall c <- s :: IsDigit(c) }

  function Digit(n: nat): (c: char)
    requires n < 10
    ensures IsDigit(c)
  {
    '0' + n as char
  }

  function Value(s: string): nat
    requires AllDigits(s)
  {
    if s == [] then 0 else
      assert s[|s| - 1] in s;
      10 * Value(s[..|s| - 1]) + (s[|s| - 1] - '0') as int
  }

  function Digits(n: nat): (s: string)
    ensures AllDigits(s) && s != []
  {
    if n < 10 then [Digit(n)] else Digits(n / 10) + [Digit(n % 10)]
  }

  function Power(places: nat): nat { if places == 0 then 1 else 10 * Power(places - 1) }

  function PadStart(s: string, width: nat): string
    decreases width - |s|
  {
    if |s| >= width then s else PadStart("0" + s, width)
  }

  function PadEnd(s: string, width: nat): string
    decreases width - |s|
  {
    if |s| >= width then s else PadEnd(s + "0", width)
  }

  function StripZeros(s: string): string {
    if s != [] && s[|s| - 1] == '0' then StripZeros(s[..|s| - 1]) else s
  }

  predicate IsSpace(c: char) { c in {' ', '\t', '\n', '\r'} }

  function Trim(s: string): string {
    if s == [] then s
    else if IsSpace(s[0]) then Trim(s[1..])
    else if IsSpace(s[|s| - 1]) then Trim(s[..|s| - 1])
    else s
  }

  function Dot(s: string): (at: nat)
    ensures at <= |s|
    ensures at < |s| ==> s[at] == '.'
    ensures '.' !in s[..at]
  {
    if s == [] || s[0] == '.' then 0 else
      assert s[..1 + Dot(s[1..])] == [s[0]] + s[1..][..Dot(s[1..])];
      1 + Dot(s[1..])
  }

  /** The pattern of digits, optionally followed by a point and one to `places` digits. */
  predicate WellFormed(s: string, places: nat) {
    var whole := s[..Dot(s)];
    && whole != [] && AllDigits(whole)
    && (Dot(s) < |s| ==> var fraction := s[Dot(s) + 1..]; 1 <= |fraction| <= places && AllDigits(fraction))
  }

  /** The units of 10^-places that a well-formed text denotes. */
  function Units(s: string, places: nat): nat
    requires WellFormed(s, places)
  {
    var fraction := if Dot(s) < |s| then s[Dot(s) + 1..] else "";
    PadEndDigits(fraction, places);
    Value(s[..Dot(s)]) * Power(places) + Value(PadEnd(fraction, places))
  }

  lemma PadEndDigits(s: string, width: nat)
    requires AllDigits(s)
    ensures AllDigits(PadEnd(s, width))
    decreases width - |s|
  {
    if |s| < width { PadEndDigits(s + "0", width); }
  }

  // ---------- The four conversions ----------

  function ParseRateMicros(value: string): Result<nat, Error> {
    var raw := Trim(value);
    if !WellFormed(raw, 6) then Failure(InvalidRate)
    else if Units(raw, 6) <= 0 then Failure(NonPositiveRate)
    else Success(Units(raw, 6))
  }

  function FormatRate(micros: nat): string {
    var whole := Digits(micros / SCALE);
    var fraction := StripZeros(PadStart(Digits(micros % SCALE), 6));
    if fraction != [] then whole + "." + fraction else whole
  }

  /** The source answers -1 for anything it cannot read. */
  function ProviderAmountToMinor(value: string): int {
    var raw := Trim(value);
    if !WellFormed(raw, 2) then -1 else Units(raw, 2)
  }

  function ProviderAmountDecimal(amount: int): Result<string, Error> {
    if amount < 0 then Failure(NegativeAmount)
    else Success(Digits(amount / 100) + "." + PadStart(Digits(amount % 100), 2))
  }

  function UsdMinorToArsMinor(usd: int, rateMicros: int): Result<int, Error> {
    if usd < 0 || rateMicros <= 0 then Failure(NegativeAmount)
    else Success((usd * rateMicros + SCALE / 2) / SCALE)
  }

  // ---------- Round trips ----------

  lemma {:induction false} ValueOfDigits(n: nat)
    ensures Value(Digits(n)) == n
  {
    if n >= 10 {
      ValueOfDigits(n / 10);
      assert (Digits(n / 10) + [Digit(n % 10)])[..|Digits(n / 10)|] == Digits(n / 10);
    }
  }

  lemma {:induction false} DigitsWidth(n: nat, width: nat)
    requires n < Power(width) && width > 0
    ensures |Digits(n)| <= width
  {
    if n >= 10 {
      DivAtMost(n, 10, Power(width - 1) - 1);
      DigitsWidth(n / 10, width - 1);
    }
  }

  lemma {:induction false} ZeroPrefix(s: string)
    requires AllDigits(s)
    ensures Value("0" + s) == Value(s)
  {
    if s == [] {
      assert "0" + s == "0" && "0"[..0] == [];
    } else {
      ZeroPrefix(s[..|s| - 1]);
      assert ("0" + s)[..|s|] == "0" + s[..|s| - 1];
    }
  }

  lemma {:induction false} PadStartFacts(s: string, width: nat)
    requires AllDigits(s) && |s| <= width
    ensures AllDigits(PadStart(s, width)) && |PadStart(s, width)| == width && Value(PadStart(s, width)) == Value(s)
    decreases width - |s|
  {
    if |s| < width {
      ZeroPrefix(s);
      PadStartFacts("0" + s, width);
    }
  }

  lemma {:induction false} PadEndOneMore(s: string, width: nat)
    requires |s| <= width
    ensures PadEnd(s, width + 1) == PadEnd(s, width) + "0"
    decreases width - |s|
  {
    if |s| < width { PadEndOneMore(s + "0", width); }
  }

  lemma {:induction false} StripThenPad(s: string)
    requires AllDigits(s)
    ensures AllDigits(StripZeros(s)) && |StripZeros(s)| <= |s| && PadEnd(StripZeros(s), |s|) == s
  {
    if s != [] && s[|s| - 1] == '0' {
      var front := s[..|s| - 1];
      StripThenPad(front);
      PadEndOneMore(StripZeros(front), |front|);
      assert s == front + "0";
    }
  }

  lemma {:induction false} DotAfterDigits(whole: string, rest: string)
    requires AllDigits(whole) && (rest == [] || rest[0] == '.')
    ensures Dot(whole + rest) == |whole|
  {
    if whole == [] {
      assert whole + rest == rest;
    } else {
      assert whole[0] in whole && (whole + rest)[1..] == whole[1..] + rest;
      DotAfterDigits(whole[1..], rest);
    }
  }

  lemma NoSpaceAtEnds(s: string)
    requires s != [] && IsDigit(s[0]) && IsDigit(s[|s| - 1])
    ensures Trim(s) == s
  {
  }

  lemma Parts(whole: string, fraction: string)
    requires AllDigits(whole) && whole != [] && AllDigits(fraction) && fraction != []
    ensures var s := whole + "." + fraction;
            Dot(s) == |whole| && s[..|whole|] == whole && s[|whole| + 1..] == fraction && Trim(s) == s
  {
    var s := whole + "." + fraction;
    var rest := "." + fraction;
    assert s == whole + rest;
    DotAfterDigits(whole, rest);
    assert s[0] == whole[0] && whole[0] in whole;
    assert s[|s| - 1] == fraction[|fraction| - 1] && fraction[|fraction| - 1] in fraction;
    NoSpaceAtEnds(s);
  }

  lemma WholeOnly(whole: string)
    requires AllDigits(whole) && whole != []
    ensures Dot(whole) == |whole| && whole[..|whole|] == whole && Trim(whole) == whole
  {
    assert whole + "" == whole;
    DotAfterDigits(whole, "");
    assert whole[0] in whole && whole[|whole| - 1] in whole;
    NoSpaceAtEnds(whole);
  }

  /** A number written as digits, point and fraction reads back as written. */
  lemma ReadsBack(whole: string, fraction: string, places: nat)
    requires AllDigits(whole) && whole != [] && AllDigits(fraction) && |fraction| <= places
    ensures var s := if fraction == [] then whole else whole + "." + fraction;
            Trim(s) == s && WellFormed(s, places)
            && AllDigits(PadEnd(fraction, places)) && Units(s, places) == Value(whole) * Power(places) + Value(PadEnd(fraction, places))
  {
    PadEndDigits(fraction, places);
    if fraction == [] { WholeOnly(whole); } else { Parts(whole, fraction); }
  }

  lemma Powers()
    ensures Power(2) == 100 && Power(6) == SCALE
  {
  }

  /** A stored rate prints to a text that parses to the same rate. */
  lemma RateRoundTrip(micros: nat)
    requires micros > 0
    ensures ParseRateMicros(FormatRate(micros)) == Success(micros)
  {
    var whole := Digits(micros / SCALE);
    var padded := PadStart(Digits(micros % SCALE), 6);
    Powers();
    DigitsWidth(micros % SCALE, 6);
    PadStartFacts(Digits(micros % SCALE), 6);
    StripThenPad(padded);
    ReadsBack(whole, StripZeros(padded), 6);
    ValueOfDigits(micros / SCALE);
    ValueOfDigits(micros % SCALE);
  }

  /** An amount sent to the provider and echoed back is never a mismatch. */
  lemma AmountRoundTrip(amount: nat)
    ensures ProviderAmountDecimal(amount).Success?
    ensures ProviderAmountToMinor(ProviderAmountDecimal(amount).value) == amount
  {
    var fraction := PadStart(Digits(amount % 100), 2);
    Powers();
    DigitsWidth(amount % 100, 2);
    PadStartFacts(Digits(amount % 100), 2);
    ReadsBack(Digits(amount / 100), fraction, 2);
    ValueOfDigits(amount / 100);
    ValueOfDigits(amount % 100);
  }

  /** Every accepted rate text has one canonical form, and that form parses to the same rate. */
  lemma CanonicalRate(value: string)
    requires ParseRateMicros(value).Success?
    ensures ParseRateMicros(FormatRate(ParseRateMicros(value).value)) == ParseRateMicros(value)
  {
    RateRoundTrip(ParseRateMicros(value).value);
  }

  // ---------- What a text means ----------

  lemma {:induction false} PadEndValue(s: string, width: nat)
    requires AllDigits(s) && |s| <= width
    ensures AllDigits(PadEnd(s, width)) && Value(PadEnd(s, width)) == Value(s) * Power(width - |s|)
    decreases width - |s|
  {
    if |s| < width {
      PadEndValue(s + "0", width);
      ZeroAppended(s);
      TenTimes(Value(s), Power(width - |s| - 1));
    }
  }

  lemma ZeroAppended(s: string)
    requires AllDigits(s)
    ensures Value(s + "0") == 10 * Value(s)
  {
    assert (s + "0")[..|s|] == s;
  }

  lemma TenTimes(n: nat, p: nat)
    ensures (10 * n) * p == n * (10 * p)
  {
  }

  /** A text of digits, or of digits, a point and digits. */
  function Text(whole: string, fraction: string): string {
    if fraction == "" then whole else whole + "." + fraction
  }

  /**
   What a decimal text means: the digits before the point count whole units, the n digits after it count
   10^-n units each; a rate must be positive and keeps six places, an amount keeps two.
   */
  lemma TextMeans(whole: string, fraction: string)
    requires AllDigits(whole) && whole != "" && AllDigits(fraction)
    ensures |fraction| <= 6 ==>
              var micros := Value(whole) * 1_000_000 + Value(fraction) * Power(6 - |fraction|);
              ParseRateMicros(Text(whole, fraction)) == if micros > 0 then Success(micros) else Failure(NonPositiveRate)
    ensures |fraction| > 6 ==> ParseRateMicros(Text(whole, fraction)) == Failure(InvalidRate)
    ensures |fraction| <= 2 ==> ProviderAmountToMinor(Text(whole, fraction)) == Value(whole) * 100 + Value(fraction) * Power(2 - |fraction|)
    ensures |fraction| > 2 ==> ProviderAmountToMinor(Text(whole, fraction)) == -1
  {
    if |fraction| <= 6 { TextReads(whole, fraction, 6); } else { TooManyPlaces(whole, fraction, 6); }
    if |fraction| <= 2 { TextReads(whole, fraction, 2); } else { TooManyPlaces(whole, fraction, 2); }
    Powers();
  }

  lemma TextReads(whole: string, fraction: string, places: nat)
    requires AllDigits(whole) && whole != "" && AllDigits(fraction) && |fraction| <= places
    ensures var s := Text(whole, fraction);
            Trim(s) == s && WellFormed(s, places)
            && Units(s, places) == Value(whole) * Power(places) + Value(fraction) * Power(places - |fraction|)
  {
    ReadsBack(whole, fraction, places);
    PadEndValue(fraction, places);
  }

  lemma TooManyPlaces(whole: string, fraction: string, places: nat)
    requires AllDigits(whole) && whole != "" && AllDigits(fraction) && |fraction| > places
    ensures Trim(Text(whole, fraction)) == Text(whole, fraction) && !WellFormed(Text(whole, fraction), places)
  {
    Parts(whole, fraction);
  }

  // ---------- Conversion ----------

  /** The conversion is the one whole number of cents within half a cent, ties going up. */
  lemma ConversionIsNearest(usd: nat, rateMicros: nat, cents: int)
    requires rateMicros > 0
    ensures var nearest := cents * SCALE - SCALE / 2 <= usd * rateMicros < cents * SCALE + SCALE / 2;
            UsdMinorToArsMinor(usd, rateMicros) == Success(cents) <==> nearest
  {
    var x := usd * rateMicros + SCALE / 2;
    DivAtLeast(x, SCALE, cents);
    DivAtMost(x, SCALE, cents);
  }

  /** Converting more dollars, or at a higher rate, never yields fewer pesos. */
  lemma ConversionMonotone(usd: nat, rate: nat, usd': nat, rate': nat)
    requires 0 < rate <= rate' && usd <= usd'
    ensures UsdMinorToArsMinor(usd, rate).value <= UsdMinorToArsMinor(usd', rate').value
  {
    MulMonotone(usd, usd', rate);
    MulMonotone(rate, rate', usd');
    DivMonotone(usd * rate + SCALE / 2, usd' * rate' + SCALE / 2, SCALE);
  }
}
