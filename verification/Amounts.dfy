/**
 Token amounts: 256-bit counts of atto tokens, printed and parsed as decimal numbers
 with eighteen places. Unchecked 256-bit arithmetic is written with its wrap-around.
 */
module Amounts {
  import opened Wrappers

  const TWO_256: nat := 0x1_0000_0000_0000_0000_0000_0000_0000_0000_0000_0000_0000_0000_0000_0000_0000_0000
  const MAX_U64: nat := 0xFFFF_FFFF_FFFF_FFFF
  const PLACES: nat := 18  // TOKEN_TO_RAW_POWER_OF_10_CONVERSION
  const SCALE: nat := 1_000_000_000_000_000_000  // TOKEN_TO_RAW_CONVERSION

  type Amount = a: nat | a < TWO_256

  datatype EvmError = FailedToParseAttoToken(what: string) | ExcessiveValue | LossOfPrecision

  const UNITS: EvmError := FailedToParseAttoToken("Can't parse token units")
  const REMAINDER: EvmError := FailedToParseAttoToken("Can't parse token remainder")

  // ---------------------------------------------------------------- 256-bit operators

  /** The low 256 bits of `n`. */
  function Wrapped(n: nat): Amount
  {
    if n < TWO_256 then n
    else n % 0x1_0000_0000_0000_0000_0000_0000_0000_0000_0000_0000_0000_0000_0000_0000_0000_0000
  }

  /** `units` whole tokens; the factor is `SCALE`. */
  function Atto(units: nat): nat
  {
    units * 1_000_000_000_000_000_000
  }

  function CheckedAtto(units: Amount): Option<Amount>
  {
    if Atto(units) < TWO_256 then Some(Atto(units)) else None
  }

  function WholeTokens(x: nat): nat
  {
    x / 1_000_000_000_000_000_000
  }

  function AttoPart(x: nat): nat
  {
    x % 1_000_000_000_000_000_000
  }

  /** The unchecked product with a power of ten. */
  function ScaledUp(a: Amount, k: nat): Amount
  {
    Wrapped(a * Wrapped(Pow10(k)))
  }

  // ---------------------------------------------------------------- decimal text

  function Pow10(n: nat): (r: nat)
    ensures r >= 1
  {
    if n == 0 then 1 else 10 * Pow10(n - 1)
  }

  predicate AllDigits(s: string)
  {
    forall i | 0 <= i < |s| :: '0' <= s[i] <= '9'
  }

  function DigitValue(c: char): (d: nat)
    requires '0' <= c <= '9'
    ensures d < 10
  {
    c as nat - '0' as nat
  }

  function DigitChar(d: nat): (c: char)
    requires d < 10
    ensures '0' <= c <= '9' && DigitValue(c) == d
  {
    ('0' as nat + d) as char
  }

  /** The number a digit string denotes. */
  function ToNat(s: string): nat
    requires AllDigits(s)
  {
    if s == [] then 0 else 10 * ToNat(Front(s)) + DigitValue(Last(s))
  }

  /** Decimal notation without leading zeros. */
  function Decimal(n: nat): (s: string)
    ensures s != [] && AllDigits(s)
  {
    if n < 10 then [DigitChar(n)] else Decimal(n / 10) + [DigitChar(n % 10)]
  }

  function Zeros(n: nat): (s: string)
    ensures |s| == n && AllDigits(s)
  {
    seq(n, _ => '0')
  }

  function PadLeft(s: string, width: nat): string
  {
    if |s| < width then Zeros(width - |s|) + s else s
  }

  function TrimZeros(s: string): string
  {
    if s != [] && Last(s) == '0' then TrimZeros(Front(s)) else s
  }

  /** Splits at the first point, if there is one. */
  function SplitDot(s: string): (string, Option<string>)
  {
    if s == [] then ([], None)
    else if s[0] == '.' then ([], Some(s[1..]))
    else var (units, rest) := SplitDot(s[1..]); ([s[0]] + units, rest)
  }

  // ---------------------------------------------------------------- the two conversions

  /** The library parser: exact on digit strings; `other` stands for its answer on any other text. */
  function ParseAmount(s: string, other: string -> Option<Amount>): Option<Amount>
  {
    if s != [] && AllDigits(s) then (if ToNat(s) < TWO_256 then Some(ToNat(s)) else None) else other(s)
  }

  function ParseRemainder(text: string, other: string -> Option<Amount>): Result<Amount, EvmError>
  {
    if text == [] then Ok(0)
    else
      match ParseAmount(text, other)
      case None => Err(REMAINDER)
      case Some(parsed) =>
        if PLACES < |text| then Err(LossOfPrecision)
        else
          var conversion := PLACES - |text|;
          if conversion > 32 then Err(LossOfPrecision)
          else Ok(ScaledUp(parsed, conversion))
  }

  function FromStr(value: string, other: string -> Option<Amount>): Result<Amount, EvmError>
  {
    var (unitsText, rest) := SplitDot(value);
    match ParseAmount(unitsText, other)
    case None => Err(UNITS)
    case Some(units) =>
      if units > MAX_U64 then Err(ExcessiveValue)
      else
        match CheckedAtto(units)
        case None => Err(ExcessiveValue)
        case Some(converted) =>
          match ParseRemainder(TrimZeros(if rest.Some? then rest.value else []), other)
          case Err(e) => Err(e)
          case Ok(remainder) => Ok(Wrapped(converted + remainder))
  }

  function Display(x: Amount): string
  {
    Decimal(WholeTokens(x)) + "." + PadLeft(Decimal(AttoPart(x)), PLACES)
  }

  // ---------------------------------------------------------------- scaling by powers of ten

  /** `a` with `k` zeros written behind it. */
  function Scaled(a: nat, k: nat): nat
  {
    if k == 0 then a else 10 * Scaled(a, k - 1)
  }

  lemma {:induction false} ScaledIsProduct(a: nat, k: nat)
    ensures Scaled(a, k) == a * Pow10(k)
  {
    if k > 0 {
      ScaledIsProduct(a, k - 1);
      assert 10 * (a * Pow10(k - 1)) == a * (10 * Pow10(k - 1));
    }
  }

  lemma {:induction false} ScaledBound(a: nat, m: nat, k: nat)
    requires a < Pow10(m)
    ensures Scaled(a, k) < Pow10(m + k)
  {
    if k > 0 {
      ScaledBound(a, m, k - 1);
    }
  }

  lemma {:induction false} Pow10Monotone(a: nat, b: nat)
    requires a <= b
    ensures Pow10(a) <= Pow10(b)
  {
    if a < b {
      Pow10Monotone(a, b - 1);
    }
  }

  lemma {:induction false} Pow10IsScaled(k: nat)
    ensures Pow10(k) == Scaled(1, k)
  {
    if k > 0 {
      Pow10IsScaled(k - 1);
    }
  }

  lemma {:induction false} ScaledTwice(a: nat, j: nat, k: nat)
    ensures Scaled(Scaled(a, j), k) == Scaled(a, j + k)
  {
    if k > 0 {
      ScaledTwice(a, j, k - 1);
    }
  }

  lemma SixZeros(a: nat)
    ensures Scaled(a, 6) == a * 1_000_000
  {
    assert Scaled(a, 2) == 10 * Scaled(a, 1) == 100 * a;
    assert Scaled(a, 4) == 10 * Scaled(a, 3) == 10_000 * a;
  }

  lemma AttoIsScaled(a: nat)
    ensures Scaled(a, PLACES) == Atto(a)
  {
    SixZeros(a);
    SixZeros(Scaled(a, 6));
    ScaledTwice(a, 6, 6);
    SixZeros(Scaled(a, 12));
    ScaledTwice(a, 12, 6);
  }

  lemma ScaleIsPower()
    ensures Pow10(PLACES) == SCALE
  {
    Pow10IsScaled(PLACES);
    AttoIsScaled(1);
  }

  lemma FitsUnwrapped(a: nat, p: nat, v: nat)
    requires v == a * p && v < TWO_256 && p < TWO_256
    ensures Wrapped(a * Wrapped(p)) == v
  {
  }

  lemma ScaledUpExactly(a: Amount, k: nat)
    requires Scaled(a, k) < TWO_256 && Pow10(k) < TWO_256
    ensures ScaledUp(a, k) == Scaled(a, k)
  {
    ScaledIsProduct(a, k);
    FitsUnwrapped(a, Pow10(k), Scaled(a, k));
  }

  lemma FractionBound(n: nat, digits: nat)
    requires digits <= PLACES && n < Pow10(digits)
    ensures n < SCALE && Scaled(n, PLACES - digits) < SCALE
  {
    ScaleIsPower();
    ScaledBound(n, digits, PLACES - digits);
    Pow10Monotone(digits, PLACES);
  }

  /** The unchecked product never wraps for a number of at most eighteen digits. */
  lemma FractionFits(n: nat, digits: nat)
    requires digits <= PLACES && n < Pow10(digits)
    ensures n < SCALE && ScaledUp(n, PLACES - digits) == Scaled(n, PLACES - digits)
  {
    FractionBound(n, digits);
    ScaleIsPower();
    Pow10Monotone(PLACES - digits, PLACES);
    ScaledUpExactly(n, PLACES - digits);
  }

  /** Neither the checked product nor the unchecked sum of `FromStr` leaves the 256 bits. */
  lemma NoWrapAdd(units: nat, remainder: nat)
    requires units <= MAX_U64 && remainder < SCALE
    ensures Atto(units) + remainder < TWO_256
  {
  }

  // ---------------------------------------------------------------- lemmas on digit strings

  lemma {:induction false} ToNatConcat(a: string, b: string)
    requires AllDigits(a) && AllDigits(b)
    ensures AllDigits(a + b)
    ensures ToNat(a + b) == Scaled(ToNat(a), |b|) + ToNat(b)
    decreases |b|
  {
    if b == [] {
      assert a + b == a;
    } else {
      ToNatConcat(a, Front(b));
      assert Front(a + b) == a + Front(b);
    }
  }

  lemma {:induction false} ToNatBound(s: string)
    requires AllDigits(s)
    ensures ToNat(s) < Pow10(|s|)
  {
    if s != [] {
      ToNatBound(Front(s));
    }
  }

  lemma {:induction false} ZerosAreZero(n: nat)
    ensures ToNat(Zeros(n)) == 0
  {
    if n > 0 {
      ZerosAreZero(n - 1);
      assert Front(Zeros(n)) == Zeros(n - 1);
    }
  }

  lemma {:induction false} DecimalDenotes(n: nat)
    ensures ToNat(Decimal(n)) == n
  {
    if n >= 10 {
      DecimalDenotes(n / 10);
      assert Front(Decimal(n)) == Decimal(n / 10);
    } else {
      assert Front(Decimal(n)) == [];
    }
  }

  lemma {:induction false} DecimalWidth(n: nat, width: nat)
    requires n < Pow10(width) && width > 0
    ensures |Decimal(n)| <= width
  {
    if n >= 10 {
      DecimalWidth(n / 10, width - 1);
    }
  }

  lemma {:induction false} TrimmedPlusZeros(s: string)
    ensures |TrimZeros(s)| <= |s|
    ensures s == TrimZeros(s) + Zeros(|s| - |TrimZeros(s)|)
    ensures AllDigits(s) ==> AllDigits(TrimZeros(s))
  {
    if s != [] && Last(s) == '0' {
      TrimmedPlusZeros(Front(s));
      assert s == Front(s) + "0";
    }
  }

  lemma {:induction false} TrimIgnoresZeros(s: string, n: nat)
    ensures TrimZeros(s + Zeros(n)) == TrimZeros(s)
  {
    if n == 0 {
      assert s + Zeros(0) == s;
    } else {
      TrimIgnoresZeros(s, n - 1);
      assert Front(s + Zeros(n)) == s + Zeros(n - 1);
    }
  }

  lemma {:induction false} SplitAtDot(units: string, rest: string)
    requires AllDigits(units)
    ensures SplitDot(units + "." + rest) == (units, Some(rest))
    ensures SplitDot(units) == (units, None)
  {
    if units == [] {
      assert units + "." + rest == "." + rest;
    } else {
      SplitAtDot(units[1..], rest);
      assert (units + "." + rest)[1..] == units[1..] + "." + rest;
      assert units == [units[0]] + units[1..];
    }
  }

  lemma {:induction false} LeadingZeros(k: nat, s: string)
    requires AllDigits(s)
    ensures ToNat(Zeros(k) + s) == ToNat(s)
  {
    if s == [] {
      assert Zeros(k) + s == Zeros(k);
      ZerosAreZero(k);
    } else {
      LeadingZeros(k, Front(s));
      assert Front(Zeros(k) + s) == Zeros(k) + Front(s);
    }
  }

  // ---------------------------------------------------------------- parsing

  /** What parsing `u.f` answers, for all digit strings without trailing zeros in `f`. */
  function Expected(u: string, f: string): Result<nat, EvmError>
    requires AllDigits(u) && AllDigits(f)
  {
    ExpectedValue(ToNat(u), ToNat(f), |f|)
  }

  function ExpectedValue(units: nat, fraction: nat, digits: nat): Result<nat, EvmError>
  {
    if units >= TWO_256 then Err(UNITS)
    else if units > MAX_U64 then Err(ExcessiveValue)
    else if fraction >= TWO_256 then Err(REMAINDER)
    else if digits > PLACES then Err(LossOfPrecision)
    else Ok(Atto(units) + Scaled(fraction, PLACES - digits))
  }

  lemma RemainderParsed(f: string, other: string -> Option<Amount>)
    requires AllDigits(f)
    ensures |f| <= PLACES ==> ToNat(f) < SCALE && Scaled(ToNat(f), PLACES - |f|) < SCALE
    ensures ParseRemainder(f, other) ==
            if ToNat(f) >= TWO_256 then Err(REMAINDER)
            else if |f| > PLACES then Err(LossOfPrecision)
            else Ok(Scaled(ToNat(f), PLACES - |f|))
  {
    if |f| <= PLACES {
      ToNatBound(f);
      FractionBound(ToNat(f), |f|);
      FractionFits(ToNat(f), |f|);
      if f == [] {
        ScaledIsProduct(0, PLACES);
      }
    }
  }

  lemma ParsedAlike(value: string, u: string, f: string, other: string -> Option<Amount>)
    requires u != [] && AllDigits(u) && AllDigits(f)
    requires SplitDot(value) == (u, Some(f)) || (f == [] && SplitDot(value) == (u, None))
    ensures AllDigits(TrimZeros(f)) && FromStr(value, other) == Expected(u, TrimZeros(f))
  {
    TrimmedPlusZeros(f);
    var t := TrimZeros(f);
    RemainderParsed(t, other);
    if ToNat(u) <= MAX_U64 {
      NoWrapAdd(ToNat(u), 0);
      if |t| <= PLACES {
        NoWrapAdd(ToNat(u), Scaled(ToNat(t), PLACES - |t|));
      }
    }
  }

  /** For all digit strings: which texts are accepted, with which error the others are refused, and
      that the accepted value is exact, so the unchecked product and sum never wrap. */
  lemma ParsesExactly(u: string, f: string, other: string -> Option<Amount>)
    requires u != [] && AllDigits(u) && AllDigits(f)
    ensures AllDigits(TrimZeros(f))
    ensures FromStr(u + "." + f, other) == Expected(u, TrimZeros(f))
    ensures FromStr(u, other) == Expected(u, [])
    ensures Expected(u, TrimZeros(f)).Ok? <==> ToNat(u) <= MAX_U64 && |TrimZeros(f)| <= PLACES
    ensures var r, fraction := FromStr(u + "." + f, other), TrimZeros(f);
            && (r.Ok? <==> ToNat(u) < 0x1_0000_0000_0000_0000 && |fraction| <= 18)
            && (r == Err(UNITS) <==> ToNat(u) >= TWO_256)
            && (r == Err(ExcessiveValue) <==> 0x1_0000_0000_0000_0000 <= ToNat(u) < TWO_256)
            && (r == Err(LossOfPrecision) <==>
                  ToNat(u) < 0x1_0000_0000_0000_0000 && |fraction| > 18 && ToNat(fraction) < TWO_256)
  {
    SplitAtDot(u, f);
    ParsedAlike(u + "." + f, u, f, other);
    ParsedAlike(u, u, [], other);
    RemainderParsed(TrimZeros(f), other);
  }

  /** The value accepted is the number the digits denote once the point is moved eighteen places. */
  lemma ExpectedIsShifted(u: string, f: string)
    requires AllDigits(u) && AllDigits(f) && ToNat(u) <= MAX_U64 && |f| <= PLACES
    ensures AllDigits(u + (f + Zeros(PLACES - |f|)))
    ensures Expected(u, f) == Ok(ToNat(u + (f + Zeros(PLACES - |f|))))
  {
    DigitsFit(f);
    FractionValue(ToNat(u), ToNat(f), |f|, Scaled(ToNat(f), PLACES - |f|));
    AppendPlaces(u, f, PLACES - |f|);
    AttoIsScaled(ToNat(u));
  }

  lemma AppendPlaces(u: string, f: string, k: nat)
    requires AllDigits(u) && AllDigits(f)
    ensures AllDigits(u + (f + Zeros(k)))
    ensures ToNat(u + (f + Zeros(k))) == Scaled(ToNat(u), |f| + k) + Scaled(ToNat(f), k)
  {
    ToNatConcat(f, Zeros(k));
    ZerosAreZero(k);
    ToNatConcat(u, f + Zeros(k));
  }

  /** Trailing zeros of the fraction never matter. */
  lemma TrailingZerosIgnored(u: string, f: string, n: nat, other: string -> Option<Amount>)
    requires u != [] && AllDigits(u) && AllDigits(f)
    ensures FromStr(u + "." + (f + Zeros(n)), other) == FromStr(u + "." + f, other)
  {
    ParsesExactly(u, f, other);
    ParsesExactly(u, f + Zeros(n), other);
    TrimIgnoresZeros(f, n);
  }

  // ---------------------------------------------------------------- round trip

  lemma PaddedDenotes(n: nat, width: nat)
    requires n < Pow10(width) && width > 0
    ensures var f := PadLeft(Decimal(n), width); AllDigits(f) && |f| == width && ToNat(f) == n
  {
    DecimalWidth(n, width);
    DecimalDenotes(n);
    LeadingZeros(width - |Decimal(n)|, Decimal(n));
  }

  /** The printed text is a digit string, a point and eighteen digits that denote the amount. */
  lemma DisplayDenotes(x: Amount)
    ensures var u, f := Decimal(WholeTokens(x)), PadLeft(Decimal(AttoPart(x)), PLACES);
            && Display(x) == u + "." + f && AllDigits(f) && |f| == PLACES
            && ToNat(u) == WholeTokens(x) && ToNat(f) == AttoPart(x)
  {
    ScaleIsPower();
    PaddedDenotes(AttoPart(x), PLACES);
    DecimalDenotes(WholeTokens(x));
  }

  lemma TrimmedValue(f: string)
    requires AllDigits(f)
    ensures |TrimZeros(f)| <= |f| && AllDigits(TrimZeros(f))
    ensures Scaled(ToNat(TrimZeros(f)), |f| - |TrimZeros(f)|) == ToNat(f)
  {
    TrimmedPlusZeros(f);
    var k := |f| - |TrimZeros(f)|;
    ToNatConcat(TrimZeros(f), Zeros(k));
    ZerosAreZero(k);
  }

  lemma ExpectedPadded(u: string, f: string)
    requires AllDigits(u) && AllDigits(f) && |f| == PLACES && ToNat(u) < TWO_256
    ensures AllDigits(TrimZeros(f))
    ensures Expected(u, TrimZeros(f)) ==
            if ToNat(u) <= MAX_U64 then Ok(Atto(ToNat(u)) + ToNat(f)) else Err(ExcessiveValue)
  {
    TrimmedValue(f);
    DigitsFit(TrimZeros(f));
    FractionValue(ToNat(u), ToNat(TrimZeros(f)), |TrimZeros(f)|, ToNat(f));
  }

  lemma FractionValue(units: nat, fraction: nat, digits: nat, v: nat)
    requires units < TWO_256 && fraction < TWO_256 && digits <= PLACES
    requires Scaled(fraction, PLACES - digits) == v
    ensures ExpectedValue(units, fraction, digits) ==
            if units <= MAX_U64 then Ok(Atto(units) + v) else Err(ExcessiveValue)
  {
  }

  lemma DigitsFit(t: string)
    requires AllDigits(t) && |t| <= PLACES
    ensures ToNat(t) < TWO_256
  {
    ToNatBound(t);
    FractionBound(ToNat(t), |t|);
  }

  lemma Recombined(x: nat)
    ensures Atto(WholeTokens(x)) + AttoPart(x) == x
    ensures WholeTokens(x) <= MAX_U64 <==> x < Atto(MAX_U64 + 1)
  {
  }

  /** Parsing what was printed gives the amount back exactly below 2^64 whole tokens; from there on,
      for every 256-bit amount, it is refused as excessive. */
  lemma RoundTrip(x: Amount, other: string -> Option<Amount>)
    ensures FromStr(Display(x), other) ==
            if x < 18_446_744_073_709_551_616_000_000_000_000_000_000 then Ok(x) else Err(ExcessiveValue)
  {
    var u, f := Decimal(WholeTokens(x)), PadLeft(Decimal(AttoPart(x)), PLACES);
    DisplayDenotes(x);
    Recombined(x);
    PrintedParsed(Display(x), u, f, other);
  }

  lemma PrintedParsed(value: string, u: string, f: string, other: string -> Option<Amount>)
    requires u != [] && AllDigits(u) && AllDigits(f) && |f| == PLACES && ToNat(u) < TWO_256
    requires value == u + "." + f
    ensures FromStr(value, other) ==
            if ToNat(u) <= MAX_U64 then Ok(Atto(ToNat(u)) + ToNat(f)) else Err(ExcessiveValue)
  {
    SplitAtDot(u, f);
    ParsedAlike(value, u, f, other);
    ExpectedPadded(u, f);
  }
}
