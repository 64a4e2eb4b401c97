/** The retarget as the program computes it: big-endian byte loops over the 32-byte target and u128
    second counts. Every method is proved against the integer rule of Retarget. */
module Difficulty {
  import opened Ints
  import opened Powers
  import opened Bytes
  import opened Wrappers
  import Retarget

  datatype DifficultyAdjustment = DifficultyAdjustment(difficultyBits: u8, target: Bytes32, changed: bool)

  /** 0xff >> shift on a byte. */
  function ShiftedOnes(shift: nat): (b: byte)
    requires shift < 8
    ensures b == Pow(2, 8 - shift) - 1
  {
    PowAdd(2, 8 - shift, shift);
    PowPositive(2, shift);
    assert Pow(2, 8) == 256;
    DivUnique(0xff, Pow(2, shift), Pow(2, 8 - shift) - 1, Pow(2, shift) - 1);
    0xff / Pow(2, shift)
  }

  method TargetFromDifficultyBits(bits: u8) returns (target: Bytes32)
    ensures Val(target) == Retarget.TargetValue(bits)
  {
    if bits >= 255 {
      ValZeros(ZERO_32);
      return ZERO_32;
    }
    var bytes := new byte[32](_ => 0xff);
    var fullZeroBytes := bits / 8;
    var remainingBits := bits % 8;
    for i := 0 to Min(fullZeroBytes, 32)
      invariant forall k :: 0 <= k < i ==> bytes[k] == 0
      invariant forall k :: i <= k < 32 ==> bytes[k] == 0xff
    {
      bytes[i] := 0;
    }
    if fullZeroBytes < 32 && remainingBits > 0 {
      bytes[fullZeroBytes] := ShiftedOnes(remainingBits);
    }
    target := bytes[..];
    MaskValue(target, fullZeroBytes, remainingBits);
  }

  /** Zero bytes, one partial byte and a run of 0xff bytes denote a power of two minus one. */
  lemma MaskValue(target: Bytes32, zeros: nat, shift: nat)
    requires zeros < 32 && shift < 8
    requires forall k :: 0 <= k < zeros ==> target[k] == 0
    requires target[zeros] == Pow(2, 8 - shift) - 1
    requires forall k :: zeros < k < 32 ==> target[k] == 0xff
    ensures Val(target) == Pow(2, 256 - (8 * zeros + shift)) - 1
  {
    var tail := target[zeros + 1..];
    ValueAfterZeros(target, zeros);
    ValOnes(tail);
    Pow256IsPow2(|tail|);
    PowAdd(2, 8 - shift, 8 * |tail|);
    OnesJoin(Pow(2, 8 - shift), Pow(2, 8 * |tail|));
  }

  lemma OnesJoin(p: nat, q: nat)
    ensures (p - 1) * q + (q - 1) == p * q - 1
  {}

  lemma ValuePadded(s: seq<byte>, pad: nat)
    requires pad <= |s|
    requires forall k :: 0 <= k < pad ==> s[k] == 0
    ensures Val(s) == Val(s[pad..])
  {
    assert s == s[..pad] + s[pad..];
    ValConcat(s[..pad], s[pad..]);
    ValZeros(s[..pad]);
  }

  /** Leading zero bytes add nothing: the next byte and the tail carry the value. */
  lemma ValueAfterZeros(s: seq<byte>, i: nat)
    requires i < |s|
    requires forall k :: 0 <= k < i ==> s[k] == 0
    ensures Val(s) == s[i] * Pow(256, |s| - i - 1) + Val(s[i + 1..])
  {
    ValuePadded(s, i);
    assert s[i..] == [s[i]] + s[i + 1..];
    ValCons(s[i], s[i + 1..]);
  }

  function LeadingZeros(b: byte): (n: nat)
    ensures n <= 8
  {
    if b == 0 then 8 else if b >= 128 then 0 else if b >= 64 then 1 else if b >= 32 then 2
    else if b >= 16 then 3 else if b >= 8 then 4 else if b >= 4 then 5 else if b >= 2 then 6 else 7
  }

  lemma LeadingZerosBound(b: byte)
    requires b > 0
    ensures LeadingZeros(b) <= 7
    ensures Pow(2, 7 - LeadingZeros(b)) <= b < 2 * Pow(2, 7 - LeadingZeros(b))
  {
    assert Pow(2, 0) == 1 && Pow(2, 1) == 2 && Pow(2, 2) == 4 && Pow(2, 3) == 8;
    assert Pow(2, 4) == 16 && Pow(2, 5) == 32 && Pow(2, 6) == 64 && Pow(2, 7) == 128;
  }

  method DifficultyBitsFromTarget(target: Bytes32) returns (bits: u8)
    ensures bits == Retarget.BitsOf(Val(target))
  {
    var count: u16 := 0;
    for i := 0 to 32
      invariant count == 8 * i
      invariant forall k :: 0 <= k < i ==> target[k] == 0
    {
      if target[i] == 0 {
        count := count + 8;
        continue;
      }
      LeadingByteBits(target, i);
      count := count + LeadingZeros(target[i]);
      return Min(count, U8_MAX);
    }
    ValZeros(target);
    bits := U8_MAX;
  }

  /** The first non-zero byte decides the bit count. */
  lemma LeadingByteBits(target: Bytes32, i: nat)
    requires i < 32 && target[i] != 0
    requires forall k :: 0 <= k < i ==> target[k] == 0
    ensures Retarget.BitsOf(Val(target)) == 8 * i + LeadingZeros(target[i]) <= 255
  {
    hide Pow, Val, Log2;
    var b, tail := target[i], target[i + 1..];
    ValueAfterZeros(target, i);
    ValBound(tail);
    Pow256IsPow2(|tail|);
    LeadingZerosBound(b);
    var k := 7 - LeadingZeros(b);
    PowAdd(2, k, 8 * |tail|);
    ScaledBounds(b, Pow(2, k), Pow(2, 8 * |tail|), Val(tail));
    Log2Unique(Val(target), k + 8 * |tail|);
  }

  lemma ScaledBounds(b: nat, p: nat, q: nat, v: nat)
    requires p <= b < 2 * p && v < q
    ensures p * q <= b * q + v < 2 * (p * q)
  {
    MulMonotone(p, b, q);
    MulMonotone(b + 1, 2 * p, q);
  }

  /** The low bytes of the product and the carry above them are the product of the low target bytes. */
  predicate PartialProduct(low: seq<byte>, m: nat, carry: nat, product: seq<byte>) {
    Val(low) * m == carry * Pow(256, |low|) + Val(product)
  }

  method MultiplyTargetBe(target: Bytes32, multiplier: u32) returns (bytes: seq<byte>)
    ensures Val(bytes) == Val(target) * multiplier
  {
    hide PartialProduct, Pow, Val, SatMul64, SatAdd64;
    var product := new byte[32](_ => 0);
    var carry: u64 := 0;
    NoProduct(target[32..], multiplier, product[32..]);
    for index := 32 downto 0
      invariant carry < 0x1_0000_0000
      invariant PartialProduct(target[index..], multiplier, carry, product[index..])
    {
      ghost var low, rest := product[index + 1..], target[index + 1..];
      MultiplyStep(target[index], rest, multiplier, carry, low);
      var value := SatAdd64(SatMul64(target[index], multiplier), carry);
      product[index] := value % 256;
      carry := value / 256;
      assert product[index..] == [product[index]] + low;
      assert target[index..] == [target[index]] + rest;
    }
    assert target[0..] == target && product[0..] == product[..];
    var prefix := CarryPrefix(carry);
    bytes := prefix + product[..];
    WholeProduct(target, multiplier, carry, prefix, product[..]);
  }

  lemma NoProduct(low: seq<byte>, m: nat, product: seq<byte>)
    requires low == product == []
    ensures PartialProduct(low, m, 0, product)
  {}

  lemma WholeProduct(target: Bytes32, m: nat, carry: nat, prefix: seq<byte>, product: seq<byte>)
    requires |product| == 32 && PartialProduct(target, m, carry, product) && Val(prefix) == carry
    ensures Val(prefix + product) == Val(target) * m
  {
    hide Pow, Val;
    ValConcat(prefix, product);
  }

  /** No product of a byte and a u32, plus the carry, leaves 40 bits: the u64 operations never saturate. */
  lemma ProductFits(b: byte, m: u32, carry: nat)
    requires carry < 0x1_0000_0000
    ensures 0 <= b * m + carry < 256 * 0x1_0000_0000
    ensures SatMul64(b, m) == b * m
  {
    MulMonotone(b, 255, m);
  }

  /** The final carry as bytes in front of the product: `while carry > 0`, then the reversal. */
  method CarryPrefix(total: u64) returns (prefix: seq<byte>)
    ensures Val(prefix) == total
  {
    var carry: u64 := total;
    prefix := [];
    while carry > 0
      invariant carry * Pow(256, |prefix|) + LeVal(prefix) == total
    {
      LeSnoc(prefix, carry % 256);
      PrefixStep(carry, Pow(256, |prefix|));
      prefix := prefix + [carry % 256];
      carry := carry / 256;
    }
    ReversedValue(prefix);
    prefix := Reversed(prefix);
  }

  lemma PrefixStep(carry: nat, p: nat)
    ensures carry * p == carry / 256 * (256 * p) + carry % 256 * p
  {
    var q, r := carry / 256, carry % 256;
    assert carry == q * 256 + r;
    assert (q * 256 + r) * p == q * (256 * p) + r * p;
  }

  /** One digit of the schoolbook product: value = digit * multiplier + carry, split into byte and carry. */
  lemma MultiplyStep(b: byte, rest: seq<byte>, m: u32, carry: u64, low: seq<byte>)
    requires |low| == |rest| && carry < 0x1_0000_0000
    requires PartialProduct(rest, m, carry, low)
    ensures var value := SatAdd64(SatMul64(b, m), carry);
      value / 256 < 0x1_0000_0000 && PartialProduct([b] + rest, m, value / 256, [value % 256] + low)
  {
    hide Pow, Val, SatMul64;
    ProductFits(b, m, carry);
    var value := SatAdd64(SatMul64(b, m), carry);
    ValCons(b, rest);
    ValCons(value % 256, low);
    var p := Pow(256, |rest|);
    PowStep(|rest|);
    DigitStep(b, Val(rest), m, carry, p, Val(low));
    Substituted(b * p + Val(rest), Val([b] + rest), m, value / 256, 256 * p, Pow(256, |rest| + 1),
                value % 256 * p + Val(low), Val([value % 256] + low));
  }

  lemma PowStep(n: nat)
    ensures Pow(256, n + 1) == 256 * Pow(256, n)
  {}

  lemma Substituted(v: nat, w: nat, m: nat, carry: nat, p: nat, q: nat, low: nat, product: nat)
    requires v == w && p == q && low == product && v * m == carry * p + low
    ensures w * m == carry * q + product
  {}

  lemma DigitStep(b: nat, v: nat, m: nat, carry: nat, p: nat, low: nat)
    requires v * m == carry * p + low
    ensures var value := b * m + carry;
      (b * p + v) * m == value / 256 * (256 * p) + (value % 256 * p + low)
  {
    var value := b * m + carry;
    var q, r := value / 256, value % 256;
    assert (b * p + v) * m == (b * m) * p + v * m;
    assert (b * m) * p + carry * p == value * p;
    assert value == q * 256 + r;
    assert (q * 256 + r) * p == q * (256 * p) + r * p;
  }

  function Reversed(s: seq<byte>): (r: seq<byte>)
    ensures |r| == |s|
  {
    if s == [] then [] else Reversed(s[1..]) + [s[0]]
  }

  lemma {:induction false} ReversedValue(s: seq<byte>)
    ensures Val(Reversed(s)) == LeVal(s)
  {
    if s != [] {
      var r := Reversed(s[1..]);
      ReversedValue(s[1..]);
      ValSnoc(r, s[0]);
      assert Reversed(s) == r + [s[0]];
    }
  }

  lemma {:induction false} LeSnoc(s: seq<byte>, b: byte)
    ensures LeVal(s + [b]) == LeVal(s) + b * Pow(256, |s|)
  {
    if s != [] {
      assert (s + [b])[1..] == s[1..] + [b];
      LeSnoc(s[1..], b);
      assert 256 * (b * Pow(256, |s| - 1)) == b * (256 * Pow(256, |s| - 1));
    }
  }

  /** The quotient digits of the long division, as many as the dividend has bytes. */
  method QuotientDigits(bytes: seq<byte>, d: u64) returns (quotient: seq<byte>)
    requires 1 <= d <= U32_MAX
    ensures Val(quotient) == Val(bytes) / d
  {
    quotient := [];
    var remainder: u64 := 0;
    for i := 0 to |bytes|
      invariant |quotient| == i
      invariant remainder < d
      invariant Val(bytes[..i]) == Val(quotient) * d + remainder
    {
      var accumulator: u64 := remainder * 256 + bytes[i];
      AccumulatorFits(remainder, d, bytes[i]);
      var digit := QuotientDigit(accumulator, d);
      assert bytes[..i + 1][..i] == bytes[..i];
      DivideStep(Val(quotient), d, remainder, bytes[i]);
      ValSnoc(quotient, digit);
      quotient := quotient + [digit];
      remainder := accumulator % d;
    }
    assert bytes[..|bytes|] == bytes;
    DivUnique(Val(bytes), d, Val(quotient), remainder);
  }

  lemma AccumulatorFits(remainder: nat, d: nat, b: byte)
    requires remainder < d
    ensures remainder * 256 + b < 256 * d
  {}

  /** `(accumulator / divisor) as u8`: the truncation loses nothing. */
  function QuotientDigit(accumulator: u64, d: u64): (digit: byte)
    requires 1 <= d && accumulator < 256 * d
    ensures digit == accumulator / d
  {
    DivAdjoint(accumulator, d, 256);
    (accumulator / d) % 256
  }

  method DivideTargetBe(bytes: seq<byte>, divisor: u32) returns (out: Bytes32)
    ensures Val(out) == Min(Val(bytes) / Max(divisor, 1), Pow(2, 256) - 1)
  {
    hide Pow, Val;
    var quotient := QuotientDigits(bytes, Max(divisor, 1));
    var trimmed := Trimmed(quotient);
    Pow256IsPow2(32);
    if |trimmed| > 32 {
      TooLong(trimmed);
      out := seq(32, _ => 0xff);
      ValOnes(out);
    } else {
      out := RightAligned(trimmed);
      ValBound(out);
    }
  }

  /** The digits from the first non-zero one on. */
  method Trimmed(quotient: seq<byte>) returns (trimmed: seq<byte>)
    ensures Val(trimmed) == Val(quotient)
    ensures trimmed != [] ==> trimmed[0] != 0
  {
    var firstNonZero := 0;
    while firstNonZero < |quotient| && quotient[firstNonZero] == 0
      invariant firstNonZero <= |quotient|
      invariant forall k :: 0 <= k < firstNonZero ==> quotient[k] == 0
    {
      firstNonZero := firstNonZero + 1;
    }
    trimmed := quotient[firstNonZero..];
    ValuePadded(quotient, firstNonZero);
  }

  /** Copies at most 32 digits to the end of a zeroed buffer. */
  method RightAligned(digits: seq<byte>) returns (out: Bytes32)
    requires |digits| <= 32
    ensures Val(out) == Val(digits)
  {
    var buffer := new byte[32](_ => 0);
    var pad := 32 - |digits|;
    for k := 0 to |digits|
      invariant forall j :: 0 <= j < pad ==> buffer[j] == 0
      invariant forall j :: 0 <= j < k ==> buffer[pad + j] == digits[j]
    {
      buffer[pad + k] := digits[k];
    }
    out := buffer[..];
    assert out[pad..] == digits;
    ValuePadded(out, pad);
  }

  lemma DivideStep(q: nat, d: nat, r: nat, b: byte)
    requires d > 0
    ensures (q * d + r) * 256 + b == (q * 256 + (r * 256 + b) / d) * d + (r * 256 + b) % d
  {
    var a := r * 256 + b;
    assert a == a / d * d + a % d;
    assert (q * 256 + a / d) * d == q * d * 256 + a / d * d;
  }

  /** More than 32 significant bytes denote at least 2^256. */
  lemma TooLong(s: seq<byte>)
    requires |s| > 32 && s[0] != 0
    ensures Val(s) >= Pow(256, 32)
  {
    assert s == [s[0]] + s[1..];
    ValCons(s[0], s[1..]);
    PowMonotone(256, 32, |s| - 1);
    PowPositive(256, |s| - 1);
    MulMonotone(1, s[0], Pow(256, |s| - 1));
  }

  /** Scaling by numerator / denominator: the floor, capped at 2^256 - 1; no carry, remainder or
      truncated byte loses a bit. */
  method ScaleTarget(target: Bytes32, numerator: u32, denominator: u32) returns (scaled: Bytes32)
    ensures Val(scaled) == Min(Val(target) * Max(numerator, 1) / Max(denominator, 1), Pow(2, 256) - 1)
  {
    if numerator == denominator {
      var n := Max(numerator, 1);
      DivUnique(Val(target) * n, n, Val(target), 0);
      ValBound(target);
      Pow256IsPow2(32);
      return target;
    }
    var product := MultiplyTargetBe(target, Max(numerator, 1));
    scaled := DivideTargetBe(product, Max(denominator, 1));
  }

  function ClampTarget(target: Bytes32, minTarget: Bytes32, maxTarget: Bytes32): (r: Bytes32)
    ensures Val(r) == Retarget.Clamp(Val(target), Val(minTarget), Val(maxTarget))
  {
    LexIsNumeric(target, minTarget);
    LexIsNumeric(maxTarget, target);
    if LexLess(target, minTarget) then minTarget
    else if LexLess(maxTarget, target) then maxTarget
    else target
  }

  function CheckedMul128(x: u128, y: u128): Option<u128> {
    MulNonNegative(x, y);
    if x * y <= U128_MAX then Some(x * y) else None
  }

  function CheckedAdd128(x: Option<u128>, y: u128): Option<u128> {
    match x
    case Some(v) => if v + y <= U128_MAX then Some(v + y) else None
    case None => None
  }

  function UnwrapOr(x: Option<u128>, default: u128): u128 {
    match x
    case Some(v) => v
    case None => default
  }

  /** `Ord::clamp` on u128 panics unless the bounds are in order. */
  function Clamp128(x: u128, lo: u128, hi: u128): u128
    requires lo <= hi
  {
    Retarget.Clamp(x, lo, hi)
  }

  function SmoothedSeconds(observed: u64, expected: u64): (seconds: u128)
    ensures seconds == Retarget.Smoothed(observed, expected)
  {
    if observed <= expected then
      UnwrapOr(CheckedAdd128(CheckedMul128(observed, 7), expected), U128_MAX) / 8
    else
      UnwrapOr(CheckedAdd128(CheckedMul128(observed, 3), expected), U128_MAX) / 4
  }

  function RampedSeconds(observed: u64, expected: u64, clamped: u128): (seconds: u128)
    ensures seconds == Retarget.Ramped(observed, expected, clamped)
  {
    if SatMul128(observed, 100) <= SatMul128(expected, 25) then
      Min(clamped, Max(SatMul128(expected, 15) / 100, 1))
    else if SatMul128(observed, 100) <= SatMul128(expected, 50) then
      Min(clamped, Max(SatMul128(expected, 35) / 100, 1))
    else
      clamped
  }

  /** The block time the retarget acts on, in the checked and saturating u128 arithmetic of the source. */
  function EffectiveSeconds(observed: u64, expected: u64): (seconds: u128)
    requires expected >= 1
    ensures seconds == Retarget.Effective(observed, expected)
  {
    RampedSeconds(observed, expected,
                  Clamp128(SmoothedSeconds(observed, expected),
                           Max(expected / 8, 1), Max(SatMul128(expected, 8), 1)))
  }

  /** The ratio handed to ScaleTarget. */
  function Ratio(observed: u64, expected: u64): (bps: u32)
    requires expected >= 1
    ensures bps == Retarget.RatioBps(observed, expected) && bps >= 1
  {
    Retarget.EffectiveBounds(observed, expected);
    Retarget.RatioBounds(observed, expected);
    Clamp128(SatMul128(EffectiveSeconds(observed, expected), 10_000) / expected, 1, U32_MAX)
  }

  /** The whole per-block retarget. None of the source's guards ever decides: no checked product falls
      back, no product saturates, and no clamp meets bounds out of order. */
  method CalculateNextDifficulty(
    currentTarget: Bytes32, observedSeconds: u64, expectedSeconds: u64, minBits: u8, maxBits: u8)
    returns (adjustment: DifficultyAdjustment)
    ensures Val(adjustment.target)
         == Retarget.NextTarget(Val(currentTarget), observedSeconds, Max(expectedSeconds, 1), minBits, maxBits)
    ensures adjustment.difficultyBits == Retarget.BitsOf(Val(adjustment.target))
    ensures adjustment.changed <==> adjustment.target != currentTarget
  {
    hide Pow, Val, Retarget.RatioBps;
    var expected: u64 := Max(expectedSeconds, 1);
    var ratio := Ratio(observedSeconds, expected);
    var minTarget := TargetFromDifficultyBits(maxBits);
    var maxTarget := TargetFromDifficultyBits(minBits);
    var scaled := ScaleTarget(currentTarget, ratio, Retarget.TARGET_SCALE_DENOMINATOR_BPS);
    var nextTarget := ClampTarget(scaled, minTarget, maxTarget);
    Retarget.TargetAntitone(0, minBits);
    Retarget.TargetAntitone(0, maxBits);
    assert Val(nextTarget) == Retarget.NextTarget(Val(currentTarget), observedSeconds, expected, minBits, maxBits);
    var nextBits := DifficultyBitsFromTarget(nextTarget);
    adjustment := DifficultyAdjustment(nextBits, nextTarget, nextTarget != currentTarget);
  }
}
