/** Token amounts as the studio prints and reads them: decimal strings over u64 base units. */
module DecimalAmount {
  import opened Ints
  import opened Powers
  import opened Wrappers

  datatype AmountError = InvalidAmount | TooManyDecimals | TooLarge

  // ----- decimal digits

  predicate IsDigit(c: char) { '0' <= c <= '9' }

  predicate AllDigits(s: string) { forall i :: 0 <= i < |s| ==> IsDigit(s[i]) }

  function DigitValue(c: char): nat
    requires IsDigit(c)
  {
    c as int - '0' as int
  }

  function DigitChar(n: nat): (c: char)
    requires n < 10
    ensures IsDigit(c) && DigitValue(c) == n
  {
    ('0' as int + n) as char
  }

  function DigitsValue(s: string): nat
    requires AllDigits(s)
  {
    if s == "" then 0 else DigitsValue(s[..|s| - 1]) * 10 + DigitValue(s[|s| - 1])
  }

  /** Decimal notation without leading zeros. */
  function Decimal(n: nat): (s: string)
    ensures s != "" && AllDigits(s)
  {
    if n < 10 then [DigitChar(n)] else Decimal(n / 10) + [DigitChar(n % 10)]
  }

  lemma {:induction false} DecimalValue(n: nat)
    ensures DigitsValue(Decimal(n)) == n
  {
    if n < 10 {
      assert [DigitChar(n)][..0] == "";
    } else {
      DecimalValue(n / 10);
      assert Decimal(n)[..|Decimal(n)| - 1] == Decimal(n / 10);
    }
  }

  lemma {:induction false} DecimalLength(n: nat, d: nat)
    requires d >= 1 && n < Pow(10, d)
    ensures |Decimal(n)| <= d
  {
    if n >= 10 {
      DecimalLength(n / 10, d - 1);
    }
  }

  function ZeroDigits(n: nat): (s: string)
    ensures |s| == n && AllDigits(s)
  {
    seq(n, _ => '0')
  }

  /** Zeros in front do not change the value. */
  lemma {:induction false} LeadingZerosValue(n: nat, s: string)
    requires AllDigits(s)
    ensures DigitsValue(ZeroDigits(n) + s) == DigitsValue(s)
  {
    if s != "" {
      LeadingZerosValue(n, s[..|s| - 1]);
      assert (ZeroDigits(n) + s)[..n + |s| - 1] == ZeroDigits(n) + s[..|s| - 1];
    } else {
      assert ZeroDigits(n) + s == ZeroDigits(n);
      ZerosValue(n);
    }
  }

  lemma {:induction false} ZerosValue(n: nat)
    ensures DigitsValue(ZeroDigits(n)) == 0
  {
    if n > 0 {
      ZerosValue(n - 1);
      assert ZeroDigits(n)[..n - 1] == ZeroDigits(n - 1);
    }
  }

  /** Each zero behind multiplies the value by ten. */
  lemma {:induction false} TrailingZerosValue(s: string, n: nat)
    requires AllDigits(s)
    ensures DigitsValue(s + ZeroDigits(n)) == DigitsValue(s) * Pow(10, n)
  {
    if n == 0 {
      assert s + ZeroDigits(0) == s;
    } else {
      TrailingZerosValue(s, n - 1);
      assert (s + ZeroDigits(n))[..|s| + n - 1] == s + ZeroDigits(n - 1);
      MulAssociative(DigitsValue(s), Pow(10, n - 1), 10);
    }
  }

  // ----- the string operations of the standard library

  /** The White_Space characters of Unicode, which `trim` removes. */
  predicate IsWhitespace(c: char) {
    var u := c as int;
    9 <= u <= 13 || u == 0x20 || u == 0x85 || u == 0xA0 || u == 0x1680 || 0x2000 <= u <= 0x200A
    || u == 0x2028 || u == 0x2029 || u == 0x202F || u == 0x205F || u == 0x3000
  }

  function Trim(s: string): string {
    if s == "" then ""
    else if IsWhitespace(s[0]) then Trim(s[1..])
    else if IsWhitespace(s[|s| - 1]) then Trim(s[..|s| - 1])
    else s
  }

  /** They are these twenty-five. */
  lemma WhitespaceListed(c: char)
    ensures IsWhitespace(c) <==> c as int in {
      0x9, 0xA, 0xB, 0xC, 0xD, 0x20, 0x85, 0xA0, 0x1680, 0x2000, 0x2001, 0x2002, 0x2003, 0x2004, 0x2005, 0x2006,
      0x2007, 0x2008, 0x2009, 0x200A, 0x2028, 0x2029, 0x202F, 0x205F, 0x3000}
  {}

  predicate AllWhitespace(s: string) {
    forall i :: 0 <= i < |s| ==> IsWhitespace(s[i])
  }

  lemma {:induction false} TrimWhitespace(s: string)
    requires AllWhitespace(s)
    ensures Trim(s) == ""
  {
    hide IsWhitespace;
    if s != "" { TrimWhitespace(s[1..]); }
  }

  /** Trimming takes off the white space around a string, all of it and nothing else. */
  lemma {:induction false} TrimAround(a: string, s: string, b: string)
    requires AllWhitespace(a) && AllWhitespace(b)
    requires s != "" && !IsWhitespace(s[0]) && !IsWhitespace(s[|s| - 1])
    ensures Trim(a + s + b) == s
  {
    hide IsWhitespace;
    var t := a + s + b;
    if a != "" {
      assert t[1..] == a[1..] + s + b;
      TrimAround(a[1..], s, b);
    } else if b != "" {
      assert t[..|t| - 1] == a + s + b[..|b| - 1];
      TrimAround(a, s, b[..|b| - 1]);
    } else {
      assert t == s;
    }
  }

  function Replace(s: string, from: char, to: char): (r: string)
    ensures |r| == |s|
  {
    seq(|s|, i requires 0 <= i < |s| => if s[i] == from then to else s[i])
  }

  function Split(s: string, separator: char): (parts: seq<string>)
    ensures |parts| >= 1
  {
    if s == "" then [""]
    else
      var rest := Split(s[1..], separator);
      if s[0] == separator then [""] + rest else [[s[0]] + rest[0]] + rest[1..]
  }

  lemma {:induction false} SplitNone(s: string, separator: char)
    requires separator !in s
    ensures Split(s, separator) == [s]
  {
    if s != "" {
      SplitNone(s[1..], separator);
      assert [s[0]] + s[1..] == s;
    }
  }

  lemma {:induction false} SplitOnce(a: string, b: string, separator: char)
    requires separator !in a && separator !in b
    ensures Split(a + [separator] + b, separator) == [a, b]
  {
    var s := a + [separator] + b;
    if a == "" {
      assert s[1..] == b;
      SplitNone(b, separator);
    } else {
      assert s[1..] == a[1..] + [separator] + b;
      SplitOnce(a[1..], b, separator);
      assert s[0] in a && [a[0]] + a[1..] == a;
    }
  }

  /** `str::parse::<u64>`: an optional plus sign and at least one digit, and no more than a u64 holds. */
  function ParseU64(s: string): Option<u64> {
    var digits := if s != "" && s[0] == '+' then s[1..] else s;
    if digits == "" || !AllDigits(digits) || DigitsValue(digits) > U64_MAX then None
    else Some(DigitsValue(digits))
  }

  function SaturatingPow10(e: nat): (p: u64)
    ensures p >= 1
  {
    PowPositive(10, e);
    Min(Pow(10, e), U64_MAX)
  }

  // ----- reading an amount

  function Padded(fractional: string, decimals: u8): string {
    if |fractional| < decimals then fractional + ZeroDigits(decimals - |fractional|) else fractional
  }

  function Recombined(whole: u64, fractional: u64, decimals: u8): Result<u64, AmountError> {
    MulNonNegative(whole, SaturatingPow10(decimals));
    var value := whole * SaturatingPow10(decimals) + fractional;
    if value <= U64_MAX then Success(value) else Failure(TooLarge)
  }

  function ParsedAmount(input: string, decimals: u8): Result<u64, AmountError> {
    var trimmed := Trim(input);
    if trimmed == "" then Success(0)
    else
      var parts := Split(Replace(trimmed, ',', '.'), '.');
      match ParseU64(parts[0])
      case None => Failure(InvalidAmount)
      case Some(whole) =>
        if |parts| > 2 then Failure(InvalidAmount)
        else
          var fractional := if |parts| > 1 then parts[1] else "";
          if |fractional| > decimals then Failure(TooManyDecimals)
          else if Padded(fractional, decimals) == "" then Recombined(whole, 0, decimals)
          else
            match ParseU64(Padded(fractional, decimals))
            case None => Failure(InvalidAmount)
            case Some(value) => Recombined(whole, value, decimals)
  }

  method ParseDecimalAmount(input: string, decimals: u8) returns (amount: Result<u64, AmountError>)
    ensures amount == ParsedAmount(input, decimals)
  {
    hide Trim, Replace, Split, ParseU64, SaturatingPow10;
    var trimmed := Trim(input);
    if trimmed == "" { return Success(0); }
    var normalized := Replace(trimmed, ',', '.');
    var parts := Split(normalized, '.');
    var whole := ParseU64(parts[0]);
    if whole.None? { return Failure(InvalidAmount); }
    if |parts| > 2 { return Failure(InvalidAmount); }
    var fractionalPart := if |parts| > 1 then parts[1] else "";
    if |fractionalPart| > decimals { return Failure(TooManyDecimals); }
    var scale := SaturatingPow10(decimals);
    var fractional := fractionalPart;
    while |fractional| < decimals
      invariant |fractionalPart| <= |fractional| <= decimals
      invariant fractional == fractionalPart + ZeroDigits(|fractional| - |fractionalPart|)
    {
      fractional := fractional + ['0'];
    }
    var fractionalValue: u64 := 0;
    if fractional != "" {
      var parsed := ParseU64(fractional);
      if parsed.None? { return Failure(InvalidAmount); }
      fractionalValue := parsed.value;
    }
    assert fractional == Padded(fractionalPart, decimals);
    amount := Recombine(whole.value, scale, fractionalValue, decimals);
  }

  /** checked_mul, then checked_add. */
  method Recombine(whole: u64, scale: u64, fractionalValue: u64, ghost decimals: u8)
    returns (amount: Result<u64, AmountError>)
    requires scale == SaturatingPow10(decimals)
    ensures amount == Recombined(whole, fractionalValue, decimals)
  {
    hide SaturatingPow10;
    MulNonNegative(whole, scale);
    var product := whole * scale;
    if product > U64_MAX { return Failure(TooLarge); }
    if product + fractionalValue > U64_MAX { return Failure(TooLarge); }
    amount := Success(product + fractionalValue);
  }

  // ----- printing an amount

  function TrimZeros(s: string): string {
    if s != "" && s[|s| - 1] == '0' then TrimZeros(s[..|s| - 1]) else s
  }

  /** The fraction, padded with zeros in front to the number of decimals. */
  function PaddedFraction(fraction: nat, decimals: nat): (s: string)
    ensures AllDigits(s)
  {
    var digits := Decimal(fraction);
    if |digits| < decimals then ZeroDigits(decimals - |digits|) + digits else digits
  }

  function TrimPoint(s: string): string {
    if s != "" && s[|s| - 1] == '.' then s[..|s| - 1] else s
  }

  function FormattedAmount(amount: u64, decimals: u8): string {
    if decimals == 0 then Decimal(amount)
    else
      var scale := SaturatingPow10(decimals);
      Quotients(amount, scale);
      if amount % scale == 0 then Decimal(amount / scale)
      else TrimPoint(TrimZeros(Decimal(amount / scale) + "." + PaddedFraction(amount % scale, decimals)))
  }

  method FormatDecimalAmountTrimmed(amount: u64, decimals: u8) returns (rendered: string)
    ensures rendered == FormattedAmount(amount, decimals)
  {
    if decimals == 0 { return Decimal(amount); }
    var scale := SaturatingPow10(decimals);
    var whole := amount / scale;
    var fractional := amount % scale;
    if fractional == 0 { return Decimal(whole); }
    rendered := Decimal(whole) + "." + PaddedFraction(fractional, decimals);
    ghost var full := rendered;
    while rendered != "" && rendered[|rendered| - 1] == '0'
      invariant TrimZeros(rendered) == TrimZeros(full)
      decreases |rendered|
    {
      rendered := rendered[..|rendered| - 1];
    }
    if rendered != "" && rendered[|rendered| - 1] == '.' {
      rendered := rendered[..|rendered| - 1];
    }
  }

  // ----- the round trip

  lemma {:induction false} TrimZerosSplits(s: string)
    ensures var t := TrimZeros(s);
      && |t| <= |s| && s == t + ZeroDigits(|s| - |t|)
      && (t != "" ==> t[|t| - 1] != '0')
  {
    if s != "" && s[|s| - 1] == '0' {
      var p := s[..|s| - 1];
      TrimZerosSplits(p);
      assert ZeroDigits(|s| - |TrimZeros(s)|) == ZeroDigits(|p| - |TrimZeros(p)|) + ['0'];
    }
  }

  /** Only the part after the last non-zero character shortens. */
  lemma {:induction false} TrimZerosAppend(a: string, b: string)
    requires TrimZeros(b) != ""
    ensures TrimZeros(a + b) == a + TrimZeros(b)
  {
    if b[|b| - 1] == '0' {
      TrimZerosAppend(a, b[..|b| - 1]);
      assert (a + b)[..|a + b| - 1] == a + b[..|b| - 1];
    }
  }

  /** A string that starts and ends with a digit and has no comma reaches the parser unchanged. */
  lemma PlainText(s: string)
    requires s != "" && IsDigit(s[0]) && IsDigit(s[|s| - 1]) && ',' !in s
    ensures Trim(s) == s && Replace(s, ',', '.') == s
  {}

  lemma Quotients(amount: u64, scale: u64)
    requires scale >= 1
    ensures amount / scale * scale + amount % scale == amount
    ensures 0 <= amount / scale <= amount && 0 <= amount % scale < scale
  {
    DivAdjoint(amount, scale, amount + 1);
    MulMonotone(1, scale, amount + 1);
  }

  /** Whole amounts are read back through an all-zero fraction. */
  lemma WholeRoundTrip(whole: u64, decimals: u8)
    requires whole * SaturatingPow10(decimals) <= U64_MAX
    ensures ParsedAmount(Decimal(whole), decimals) == Success(whole * SaturatingPow10(decimals))
  {
    hide SaturatingPow10, Decimal, Trim, Replace, Split, DigitsValue, ParseU64;
    var s := Decimal(whole);
    PlainText(s);
    SplitNone(s, '.');
    DecimalValue(whole);
    ParseBounded(s);
    MulNonNegative(whole, SaturatingPow10(decimals));
    if decimals > 0 {
      assert "" + ZeroDigits(decimals) == ZeroDigits(decimals);
      ZerosValue(decimals);
      ParseBounded(ZeroDigits(decimals));
    }
  }

  /** The printed fraction has one digit per decimal and keeps its value. */
  lemma FractionValue(fraction: u64, decimals: u8)
    requires decimals > 0 && fraction < Pow(10, decimals)
    ensures |PaddedFraction(fraction, decimals)| == decimals
    ensures DigitsValue(PaddedFraction(fraction, decimals)) == fraction
  {
    hide Decimal, Pow, DigitsValue;
    var digits := Decimal(fraction);
    DecimalLength(fraction, decimals);
    DecimalValue(fraction);
    LeadingZerosValue(decimals - |digits|, digits);
  }

  /** What trimming leaves of a non-zero fraction pads back to it. */
  lemma FractionPadsBack(fraction: u64, decimals: u8) returns (t: string)
    requires decimals > 0 && 0 < fraction < Pow(10, decimals)
    ensures t == TrimZeros(PaddedFraction(fraction, decimals)) && t != "" && |t| <= decimals
    ensures AllDigits(t) && t[|t| - 1] != '0'
    ensures Padded(t, decimals) == PaddedFraction(fraction, decimals) && Padded(t, decimals) != ""
    ensures ParseU64(Padded(t, decimals)) == Some(fraction)
  {
    hide Decimal, Pow, ParseU64, DigitsValue, PaddedFraction, TrimZeros;
    var p := PaddedFraction(fraction, decimals);
    FractionValue(fraction, decimals);
    ParseBounded(p);
    t := TrimZeros(p);
    TrimZerosSplits(p);
    assert t == p[..|t|];
    ZerosValue(decimals);
    assert "" + ZeroDigits(decimals) == ZeroDigits(decimals);
  }

  /** Reading what was printed gives the amount back, for every u64 and every number of decimals,
      including those whose scale saturates. */
  lemma RoundTrip(amount: u64, decimals: u8)
    ensures ParsedAmount(FormattedAmount(amount, decimals), decimals) == Success(amount)
  {
    hide SaturatingPow10, Decimal, Trim, Replace, Split, DigitsValue, ParseU64, TrimZeros, PaddedFraction, Padded;
    var scale := SaturatingPow10(decimals);
    ScaleBound(decimals);
    Quotients(amount, scale);
    var whole, fraction := amount / scale, amount % scale;
    if decimals == 0 || fraction == 0 {
      WholeRoundTrip(if decimals == 0 then amount else whole, decimals);
    } else {
      var t := FractionPadsBack(fraction, decimals);
      var w := Decimal(whole);
      var s := w + "." + t;
      assert w + "." + PaddedFraction(fraction, decimals) == (w + ".") + PaddedFraction(fraction, decimals);
      TrimZerosAppend(w + ".", PaddedFraction(fraction, decimals));
      assert s[|s| - 1] == t[|t| - 1] && IsDigit(t[|t| - 1]) && s[0] == w[0] && IsDigit(w[0]);
      assert FormattedAmount(amount, decimals) == s;
      PlainText(s);
      SplitOnce(w, t, '.');
      DecimalValue(whole);
      ParseBounded(w);
    }
  }

  lemma {:induction false} NoLeadingZero(n: nat)
    ensures n >= 1 ==> Decimal(n)[0] != '0'
    ensures n < 10 ==> |Decimal(n)| == 1
  {
    if n >= 10 { NoLeadingZero(n / 10); }
  }

  /** The print is the shortest one: no leading zeros, no zeros after the last digit of a fraction, and a
      point only in front of one. */
  lemma PrintedShort(amount: u64, decimals: u8) returns (whole: string, fraction: string)
    ensures FormattedAmount(amount, decimals) == if fraction == "" then whole else whole + "." + fraction
    ensures whole != "" && AllDigits(whole) && (|whole| > 1 ==> whole[0] != '0')
    ensures AllDigits(fraction) && |fraction| <= decimals && (fraction != "" ==> fraction[|fraction| - 1] != '0')
  {
    hide SaturatingPow10, Decimal, TrimZeros, PaddedFraction, Padded, DigitsValue, ParseU64;
    var scale := SaturatingPow10(decimals);
    ScaleBound(decimals);
    Quotients(amount, scale);
    var units := if decimals == 0 then amount else amount / scale;
    NoLeadingZero(units);
    whole, fraction := Decimal(units), "";
    if decimals > 0 && amount % scale != 0 {
      fraction := FractionPadsBack(amount % scale, decimals);
      TrimZerosAppend(whole + ".", PaddedFraction(amount % scale, decimals));
      var s := whole + "." + fraction;
      assert (whole + ".") + fraction == s && s[|s| - 1] == fraction[|fraction| - 1];
    }
  }

  lemma ScaleBound(decimals: u8)
    ensures 1 <= SaturatingPow10(decimals) <= Pow(10, decimals)
    ensures decimals == 0 ==> SaturatingPow10(decimals) == 1
  {}

  // ----- what a decimal string means

  /** A decimal string denotes its whole part times the scale plus its fraction times the ten-power of the
      places left over; it is read as that many units when they fit in u64 and refused otherwise, as invalid
      when already a part is out of range and as too large when only the whole is. A comma is as good as a point. */
  lemma AmountMeaning(whole: string, fraction: string, point: char, decimals: u8)
    requires whole != "" && fraction != "" && AllDigits(whole) && AllDigits(fraction)
    requires (point == '.' || point == ',') && |fraction| <= decimals
    ensures
      var units := DigitsValue(whole) * SaturatingPow10(decimals)
                 + DigitsValue(fraction) * Pow(10, decimals - |fraction|);
      if units <= U64_MAX then ParsedAmount(whole + [point] + fraction, decimals) == Success(units)
      else ParsedAmount(whole + [point] + fraction, decimals) == Failure(
        if DigitsValue(whole) > U64_MAX || DigitsValue(fraction) * Pow(10, decimals - |fraction|) > U64_MAX
        then InvalidAmount else TooLarge)
  {
    hide ParsedAmount, Recombined, DigitsValue, Padded, SaturatingPow10, Pow;
    PowPositive(10, decimals - |fraction|);
    MulNonNegative(DigitsValue(fraction), Pow(10, decimals - |fraction|));
    PartsRead(whole, fraction, point, decimals);
    var w, v := DigitsValue(whole), DigitsValue(fraction) * Pow(10, decimals - |fraction|);
    MulMonotone(1, SaturatingPow10(decimals), w);
    if w <= U64_MAX && v <= U64_MAX { RecombinedValue(w, v, decimals); }
  }

  lemma RecombinedValue(whole: u64, fractional: u64, decimals: u8)
    ensures var units := whole * SaturatingPow10(decimals) + fractional;
      Recombined(whole, fractional, decimals) == if units <= U64_MAX then Success(units) else Failure(TooLarge)
  {
    hide SaturatingPow10;
  }

  lemma PartsRead(whole: string, fraction: string, point: char, decimals: u8)
    requires whole != "" && fraction != "" && AllDigits(whole) && AllDigits(fraction)
    requires (point == '.' || point == ',') && |fraction| <= decimals
    ensures Pow(10, decimals - |fraction|) > 0
    ensures var w, v := DigitsValue(whole), DigitsValue(fraction) * Pow(10, decimals - |fraction|);
      && v >= 0
      && ParsedAmount(whole + [point] + fraction, decimals)
         == if w > U64_MAX || v > U64_MAX then Failure(InvalidAmount) else Recombined(w, v, decimals)
  {
    hide Trim, Replace, Split, DigitsValue, Padded, ParseU64, Pow, Recombined;
    TrimSolid(whole + [point] + fraction);
    ReplacePoint(whole, fraction, point);
    SplitOnce(whole, fraction, '.');
    PaddedValue(fraction, decimals);
    ParseBounded(whole);
    ParseBounded(Padded(fraction, decimals));
    PowPositive(10, decimals - |fraction|);
    MulNonNegative(DigitsValue(fraction), Pow(10, decimals - |fraction|));
  }

  /** A fraction with more digits than there are decimals is refused as such, even if the rest are zeros. */
  lemma SurplusDigitsRefused(whole: string, fraction: string, point: char, decimals: u8)
    requires whole != "" && AllDigits(whole) && AllDigits(fraction) && DigitsValue(whole) <= U64_MAX
    requires (point == '.' || point == ',') && |fraction| > decimals
    ensures ParsedAmount(whole + [point] + fraction, decimals) == Failure(TooManyDecimals)
  {
    hide Trim, Replace, Split, DigitsValue, Padded, ParseU64, SaturatingPow10, Pow;
    TrimSolid(whole + [point] + fraction);
    ReplacePoint(whole, fraction, point);
    SplitOnce(whole, fraction, '.');
    ParseBounded(whole);
  }

  /** A digit string parses exactly when its value fits. */
  lemma ParseBounded(s: string)
    requires s != "" && AllDigits(s)
    ensures ParseU64(s) == if DigitsValue(s) <= U64_MAX then Some(DigitsValue(s)) else None
  {
    assert IsDigit(s[0]);
  }

  lemma TrimSolid(s: string)
    requires s != "" && IsDigit(s[0]) && IsDigit(s[|s| - 1])
    ensures Trim(s) == s
  {}

  lemma ReplacePoint(whole: string, fraction: string, point: char)
    requires AllDigits(whole) && AllDigits(fraction) && (point == '.' || point == ',')
    ensures Replace(whole + [point] + fraction, ',', '.') == whole + "." + fraction
  {}

  lemma PaddedValue(fraction: string, decimals: u8)
    requires fraction != "" && AllDigits(fraction) && |fraction| <= decimals
    ensures Padded(fraction, decimals) != "" && AllDigits(Padded(fraction, decimals))
    ensures DigitsValue(Padded(fraction, decimals)) == DigitsValue(fraction) * Pow(10, decimals - |fraction|)
  {
    TrailingZerosValue(fraction, decimals - |fraction|);
    assert fraction + ZeroDigits(0) == fraction;
  }

  // ----- which strings are accepted

  function Unsigned(s: string): string { if s != "" && s[0] == '+' then s[1..] else s }

  /** An optional plus sign and at least one digit. */
  predicate Numeral(s: string) { Unsigned(s) != "" && AllDigits(Unsigned(s)) }

  /** A whole part alone, or a whole part and a fraction around a point or a comma. */
  predicate Reads(text: string, whole: string, fraction: string) {
    (text == whole && fraction == "") || text == whole + "." + fraction || text == whole + "," + fraction
  }

  /** The fractions that are taken: digits, possibly none, with room for them; and, since the padded text is
      what gets parsed, also digits after a plus sign, or the sign alone when a zero follows it. */
  predicate FractionTaken(fraction: string, decimals: u8) {
    |fraction| <= decimals && AllDigits(Unsigned(fraction)) && (fraction == "+" ==> decimals >= 2)
  }

  function FractionUnits(fraction: string, decimals: u8): nat
    requires FractionTaken(fraction, decimals)
  {
    PowPositive(10, decimals - |fraction|);
    MulNonNegative(DigitsValue(Unsigned(fraction)), Pow(10, decimals - |fraction|));
    DigitsValue(Unsigned(fraction)) * Pow(10, decimals - |fraction|)
  }

  /** The text spells this many units, and they fit in u64. */
  predicate Spells(whole: string, fraction: string, decimals: u8, units: u64) {
    && Numeral(whole) && FractionTaken(fraction, decimals)
    && units == DigitsValue(Unsigned(whole)) * SaturatingPow10(decimals) + FractionUnits(fraction, decimals)
  }

  lemma PaddedNumeral(fraction: string, decimals: u8)
    requires |fraction| <= decimals
    ensures Padded(fraction, decimals) == "" <==> decimals == 0
    ensures decimals > 0 ==> (Numeral(Padded(fraction, decimals)) <==> FractionTaken(fraction, decimals))
    ensures FractionTaken(fraction, decimals) ==>
      && AllDigits(Unsigned(Padded(fraction, decimals)))
      && DigitsValue(Unsigned(Padded(fraction, decimals))) == FractionUnits(fraction, decimals)
  {
    hide DigitsValue, Pow;
    var zeros := ZeroDigits(decimals - |fraction|);
    var digits := Unsigned(fraction);
    assert Padded(fraction, decimals) == fraction + zeros;
    assert Unsigned(fraction + zeros) == digits + zeros;
    assert forall i :: 0 <= i < |digits| ==> (digits + zeros)[i] == digits[i];
    if AllDigits(digits) { TrailingZerosValue(digits, decimals - |fraction|); }
  }

  /** What the parser makes of a text split into whole part and fraction. */
  lemma PartsAccepted(input: string, decimals: u8, whole: string, fraction: string, units: u64)
    requires Trim(input) != ""
    requires var parts := Split(Replace(Trim(input), ',', '.'), '.');
      parts == [whole, fraction] || (parts == [whole] && fraction == "")
    ensures ParsedAmount(input, decimals) == Success(units) <==> Spells(whole, fraction, decimals, units)
  {
    hide Trim, Replace, Split, DigitsValue, SaturatingPow10, Pow, Padded, FractionUnits;
    if |fraction| <= decimals { PaddedNumeral(fraction, decimals); }
    if Numeral(whole) { MulMonotone(1, SaturatingPow10(decimals), DigitsValue(Unsigned(whole))); }
    NoFraction(decimals);
  }

  lemma NoFraction(decimals: u8)
    ensures decimals == 0 ==> FractionTaken("", decimals) && FractionUnits("", decimals) == 0
  {}

  /** No part holds the separator, and the parts with separators between them are the text. */
  lemma {:induction false} SplitRejoins(s: string, separator: char)
    ensures var parts := Split(s, separator);
      && (forall part :: part in parts ==> separator !in part)
      && (|parts| == 1 ==> s == parts[0])
      && (|parts| == 2 ==> s == parts[0] + [separator] + parts[1])
  {
    if s != "" {
      var rest := Split(s[1..], separator);
      SplitRejoins(s[1..], separator);
      assert s == [s[0]] + s[1..];
      assert forall part :: part in rest[1..] ==> part in rest;
    }
  }

  /** Where the replaced text has no point, it is the text. */
  lemma Unreplaced(text: string, part: string, at: nat)
    requires at + |part| <= |text| && Replace(text, ',', '.')[at..at + |part|] == part && '.' !in part
    ensures text[at..at + |part|] == part
  {
    var replaced := Replace(text, ',', '.');
    forall i | 0 <= i < |part| ensures text[at + i] == part[i] {
      assert replaced[at..at + |part|][i] == replaced[at + i] && part[i] in part;
    }
  }

  /** Undoing the replacement: parts without a point were parts of the original text. */
  lemma SplitReads(text: string, whole: string, fraction: string)
    requires var parts := Split(Replace(text, ',', '.'), '.');
      parts == [whole, fraction] || (parts == [whole] && fraction == "")
    ensures Reads(text, whole, fraction)
  {
    hide Split, Replace;
    var replaced := Replace(text, ',', '.');
    var parts := Split(replaced, '.');
    SplitRejoins(replaced, '.');
    assert whole in parts;
    if |parts| == 1 {
      assert replaced[0..|whole|] == whole && text[0..|text|] == text;
      Unreplaced(text, whole, 0);
    } else {
      assert fraction in parts;
      var n := |whole|;
      assert replaced[0..n] == whole && replaced[n] == '.' && replaced[n + 1..n + 1 + |fraction|] == fraction;
      Unreplaced(text, whole, 0);
      Unreplaced(text, fraction, n + 1);
      PointAt(text, n);
      assert text == text[0..n] + [text[n]] + text[n + 1..n + 1 + |fraction|];
    }
  }

  lemma PointAt(text: string, n: nat)
    requires n < |text| && Replace(text, ',', '.')[n] == '.'
    ensures text[n] == '.' || text[n] == ','
  {}

  lemma ReadsSplit(text: string, whole: string, fraction: string)
    requires Reads(text, whole, fraction)
    requires '.' !in whole && ',' !in whole && '.' !in fraction && ',' !in fraction
    ensures var parts := Split(Replace(text, ',', '.'), '.');
      parts == [whole, fraction] || (parts == [whole] && fraction == "")
  {
    hide Split;
    if text == whole {
      assert Replace(text, ',', '.') == whole;
      SplitNone(whole, '.');
    } else {
      assert Replace(text, ',', '.') == whole + "." + fraction;
      SplitOnce(whole, fraction, '.');
    }
  }

  ghost predicate SpelledBy(text: string, decimals: u8, units: u64) {
    exists whole: string, fraction: string :: Reads(text, whole, fraction) && Spells(whole, fraction, decimals, units)
  }

  /** Exactly which strings are accepted, and as what: blank ones as nothing, and those that spell an amount
      that fits in u64 as that amount. */
  lemma AcceptedIff(input: string, decimals: u8, units: u64)
    ensures ParsedAmount(input, decimals) == Success(units) <==>
      if Trim(input) == "" then units == 0 else SpelledBy(Trim(input), decimals, units)
  {
    hide Trim, Replace, Split, Spells, Reads, ParseU64, Padded, Recombined;
    var text := Trim(input);
    if text != "" {
      if SpelledBy(text, decimals, units) {
        var whole: string, fraction: string :| Reads(text, whole, fraction) && Spells(whole, fraction, decimals, units);
        NoSeparators(whole, fraction, decimals, units);
        ReadsSplit(text, whole, fraction);
        PartsAccepted(input, decimals, whole, fraction, units);
      } else if ParsedAmount(input, decimals) == Success(units) {
        var parts := Split(Replace(text, ',', '.'), '.');
        var fraction := if |parts| > 1 then parts[1] else "";
        assert parts == [parts[0]] || parts == [parts[0], fraction];
        PartsAccepted(input, decimals, parts[0], fraction, units);
        SplitReads(text, parts[0], fraction);
      }
    }
  }

  lemma NoSeparators(whole: string, fraction: string, decimals: u8, units: u64)
    requires Spells(whole, fraction, decimals, units)
    ensures '.' !in whole && ',' !in whole && '.' !in fraction && ',' !in fraction
  {
    SignedDigits(whole);
    SignedDigits(fraction);
  }

  lemma SignedDigits(s: string)
    requires AllDigits(Unsigned(s))
    ensures forall c :: c in s ==> c == '+' || IsDigit(c)
  {
    if s != "" && s[0] == '+' { assert s == ['+'] + s[1..]; }
  }

  /** A plus sign in the fraction is taken for a zero digit: "1.+5" is read as "1.05", not as "1.5". */
  lemma SignedFractionShifts(whole: string, digits: string, decimals: u8, units: u64)
    requires whole != "" && AllDigits(whole) && digits != "" && AllDigits(digits)
    ensures ParsedAmount(whole + "." + ("+" + digits), decimals) == Success(units)
       <==> ParsedAmount(whole + "." + ("0" + digits), decimals) == Success(units)
  {
    hide Trim, Replace, Split, DigitsValue, SaturatingPow10, Pow, ParsedAmount, Reads;
    var plus, zero := "+" + digits, "0" + digits;
    assert zero == ZeroDigits(1) + digits;
    LeadingZerosValue(1, digits);
    assert Unsigned(plus) == digits && Unsigned(zero) == zero && AllDigits(zero);
    PlainReads(whole, plus);
    PlainReads(whole, zero);
    PartsAccepted(whole + "." + plus, decimals, whole, plus, units);
    PartsAccepted(whole + "." + zero, decimals, whole, zero, units);
  }

  lemma PlainReads(whole: string, fraction: string)
    requires whole != "" && AllDigits(whole) && fraction != "" && AllDigits(Unsigned(fraction)) && fraction != "+"
    ensures var s := whole + "." + fraction;
      Trim(s) == s && Split(Replace(s, ',', '.'), '.') == [whole, fraction]
  {
    hide Split, Trim;
    var s := whole + "." + fraction;
    SignedDigits(fraction);
    assert IsDigit(s[0]) && IsDigit(s[|s| - 1]);
    TrimSolid(s);
    assert Replace(s, ',', '.') == s;
    SplitOnce(whole, fraction, '.');
  }

  /** With 9 decimals "1.+5" is read as 1.05 tokens. */
  lemma SignedFractionMisreads()
    ensures ParsedAmount("1.+5", 9) == Success(1_050_000_000)
    ensures ParsedAmount("1.5", 9) == Success(1_500_000_000)
  {
    hide Trim, Replace, Split, DigitsValue, SaturatingPow10, Pow, ParsedAmount;
    SmallNumbers();
    assert "1" + "." + ("+" + "5") == "1.+5" && "1" + "." + ("0" + "5") == "1.05" && "1" + "." + "5" == "1.5";
    assert "1" + ['.'] + "05" == "1.05" && "1" + ['.'] + "5" == "1.5";
    AmountMeaning("1", "05", '.', 9);
    AmountMeaning("1", "5", '.', 9);
    SignedFractionShifts("1", "5", 9, 1_050_000_000);
  }

  lemma SmallNumbers()
    ensures DigitsValue("1") == 1 && DigitsValue("5") == 5 && DigitsValue("05") == 5
    ensures SaturatingPow10(9) == 1_000_000_000 && Pow(10, 7) == 10_000_000 && Pow(10, 8) == 100_000_000
  {
    assert "1"[..0] == "" && "5"[..0] == "" && "05"[..1] == "0" && "0"[..0] == "";
    assert Pow(10, 9) == 1_000_000_000;
  }

  // ----- the scale

  /** The scale is the ten-power it stands for exactly up to 19 decimals. */
  lemma ScaleExactIff(decimals: u8)
    ensures SaturatingPow10(decimals) == Pow(10, decimals) <==> decimals <= 19
  {
    hide Pow;
    TenToThe19();
    PowAdd(10, 19, 1);
    assert Pow(10, 1) == 10 by { TenToThe1(); }
    if decimals <= 19 { PowMonotone(10, decimals, 19); } else { PowMonotone(10, 20, decimals); }
  }

  lemma TenToThe1()
    ensures Pow(10, 1) == 10
  {}

  /** Beyond that, one whole token reads as 2^64 - 1 units although 10^20 do not fit. */
  lemma SaturatedScaleMisreads()
    ensures ParsedAmount("1", 20) == Success(U64_MAX) && U64_MAX < Pow(10, 20)
  {
    hide Pow;
    ScaleExactIff(20);
    ScaleBound(20);
    assert Decimal(1) == "1";
    WholeRoundTrip(1, 20);
  }

  lemma TenToThe19()
    ensures Pow(10, 19) == 10_000_000_000_000_000_000
  {
    assert Pow(10, 4) == 10_000 && Pow(10, 3) == 1_000;
    hide Pow;
    PowAdd(10, 4, 4);
    PowAdd(10, 8, 8);
    PowAdd(10, 16, 3);
  }
}
