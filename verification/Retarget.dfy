/** The difficulty retarget as integer arithmetic: targets are numbers below 2^256, and the rule maps
    an observed and an expected block time to a ratio in basis points. The byte loops of Difficulty
    refine this module. */
module Retarget {
  import opened Ints
  import opened Powers

  const TARGET_SCALE_DENOMINATOR_BPS: u32 := 10_000

  /** The target of `bits` leading zero bits: 2^(256-bits) - 1, except that 255 bits give 0. */
  function TargetValue(bits: u8): (v: nat) {
    if bits == 255 then 0 else PowPositive(2, 256 - bits); Pow(2, 256 - bits) - 1
  }

  /** The number of leading zero bits of a 256-bit target, capped at 255. */
  function BitsOf(v: nat): (bits: nat)
    ensures bits <= 255
  {
    if v == 0 then 255 else Max(0, 255 - Log2(v))
  }

  /** Bits to target and back is the identity on every u8. */
  lemma BitsRoundTrip(bits: u8)
    ensures BitsOf(TargetValue(bits)) == bits
  {
    if bits < 255 {
      Pow2Strict(0, 255 - bits);
      Log2Unique(TargetValue(bits), 255 - bits);
    }
  }

  /** A 256-bit target has at least `bits` leading zeros exactly when it is below 2^(256-bits). */
  lemma BitsAtLeast(v: nat, bits: u8)
    requires v < Pow(2, 256)
    ensures bits <= BitsOf(v) <==> v < Pow(2, 256 - bits)
  {
    PowPositive(2, 256 - bits);
    if v >= 1 {
      var k := Log2(v);
      Log2Bounds(v);
      assert k <= 255 by { if k >= 256 { PowMonotone(2, 256, k); } }
      if bits <= 255 - k { PowMonotone(2, k + 1, 256 - bits); } else { PowMonotone(2, 256 - bits, k); }
    }
  }

  lemma BitsAntitone(v: nat, w: nat)
    requires v <= w
    ensures BitsOf(w) <= BitsOf(v)
  {
    if v >= 1 { Log2Monotone(v, w); }
  }

  /** More bits mean a smaller target. */
  lemma TargetAntitone(a: u8, b: u8)
    requires a <= b
    ensures TargetValue(b) <= TargetValue(a) < Pow(2, 256)
  {
    PowPositive(2, 256);
    PowMonotone(2, 256 - a, 256);
    if b < 255 { PowMonotone(2, 256 - b, 256 - a); }
  }

  /** A target between the bounds shows a bit count between the bounds. */
  lemma BitsWithinBounds(v: nat, minBits: u8, maxBits: u8)
    requires TargetValue(maxBits) <= v <= TargetValue(minBits)
    ensures minBits <= BitsOf(v) <= maxBits
  {
    BitsAntitone(TargetValue(maxBits), v);
    BitsAntitone(v, TargetValue(minBits));
    BitsRoundTrip(minBits);
    BitsRoundTrip(maxBits);
  }

  /** Fast blocks weigh 7 to 1 against the expectation, slow blocks 3 to 1. */
  function Smoothed(observed: nat, expected: nat): nat {
    if observed <= expected then (7 * observed + expected) / 8 else (3 * observed + expected) / 4
  }

  function Clamp(x: int, lo: int, hi: int): int {
    if x < lo then lo else if x > hi then hi else x
  }

  /** The emergency ramp caps what a block solved in at most 25% or 50% of its time counts for. */
  function Ramped(observed: nat, expected: nat, seconds: nat): nat {
    if 100 * observed <= 25 * expected then Min(seconds, Max(15 * expected / 100, 1))
    else if 100 * observed <= 50 * expected then Min(seconds, Max(35 * expected / 100, 1))
    else seconds
  }

  /** The block time the retarget acts on. */
  function Effective(observed: nat, expected: nat): nat
    requires expected >= 1
  {
    Ramped(observed, expected, Clamp(Smoothed(observed, expected), Max(expected / 8, 1), 8 * expected))
  }

  function RatioBps(observed: nat, expected: nat): nat
    requires expected >= 1
  {
    Effective(observed, expected) * 10_000 / expected
  }

  /** The next target: the current one scaled by the ratio and kept between the two bound targets. */
  function NextTarget(v: nat, observed: nat, expected: nat, minBits: u8, maxBits: u8): nat
    requires expected >= 1
  {
    Clamp(v * RatioBps(observed, expected) / 10_000, TargetValue(maxBits), TargetValue(minBits))
  }

  // ----- the values, band by band

  /** A late block counts for a quarter of three times its time and once the expectation, rounded down, and
      for no more than eight times the expectation. */
  lemma LateBlockCounts(observed: nat, expected: nat)
    requires 1 <= expected < observed
    ensures var t := Effective(observed, expected);
      if 3 * observed + expected < 32 * expected + 4 then 4 * t <= 3 * observed + expected < 4 * t + 4
      else t == 8 * expected
  {}

  /** A block in the second half of its time counts for an eighth of seven times its time and once the
      expectation, rounded down. */
  lemma EarlyBlockCounts(observed: nat, expected: nat)
    requires expected < 2 * observed && observed <= expected
    ensures var t := Effective(observed, expected);
      8 * t <= 7 * observed + expected < 8 * t + 8
  {}

  /** In the second quarter the same holds up to a cap of 35% of the expectation: the block counts for the
      most seconds that both allow, and for at least one. */
  lemma HastyBlockCounts(observed: nat, expected: nat)
    requires expected < 4 * observed && 2 * observed <= expected
    ensures var t := Effective(observed, expected);
      && t >= 1 && (t == 1 || (8 * t <= 7 * observed + expected && 100 * t <= 35 * expected))
      && (7 * observed + expected < 8 * t + 8 || 35 * expected < 100 * t + 100)
  {}

  /** In the first quarter the cap is 15%. */
  lemma RushedBlockCounts(observed: nat, expected: nat)
    requires expected >= 1 && 4 * observed <= expected
    ensures var t := Effective(observed, expected);
      && t >= 1 && (t == 1 || (8 * t <= 7 * observed + expected && 100 * t <= 15 * expected))
      && (7 * observed + expected < 8 * t + 8 || 15 * expected < 100 * t + 100)
  {}

  /** The ratio is what the block counted for over the expectation, in basis points, rounded down. */
  lemma RatioValue(observed: nat, expected: nat)
    requires expected >= 1
    ensures var r, t := RatioBps(observed, expected), Effective(observed, expected);
      r * expected <= 10_000 * t < (r + 1) * expected
  {
    var r, t := RatioBps(observed, expected), Effective(observed, expected);
    DivAdjoint(t * 10_000, expected, r);
    DivAdjoint(t * 10_000, expected, r + 1);
  }

  /** The next target is v times the ratio, rounded down, where that lies between the two bound targets,
      and the nearer bound elsewhere. */
  lemma NextTargetValue(v: nat, observed: nat, expected: nat, minBits: u8, maxBits: u8)
    requires expected >= 1 && minBits <= maxBits
    ensures var w, scaled := NextTarget(v, observed, expected, minBits, maxBits), v * RatioBps(observed, expected);
      if scaled < 10_000 * TargetValue(maxBits) then w == TargetValue(maxBits)
      else if scaled >= 10_000 * TargetValue(minBits) + 10_000 then w == TargetValue(minBits)
      else 10_000 * w <= scaled < 10_000 * w + 10_000
  {
    hide RatioBps;
    TargetAntitone(minBits, maxBits);
  }

  lemma EffectiveBounds(observed: nat, expected: nat)
    requires expected >= 1
    ensures 1 <= Effective(observed, expected) <= 8 * expected
    ensures expected <= 15 * Effective(observed, expected)
  {}

  /** The ratio stays within [6.66%, 800%], so neither end of the source's clamp(1, u32::MAX) decides. */
  lemma RatioBounds(observed: nat, expected: nat)
    requires expected >= 1
    ensures 666 <= RatioBps(observed, expected) <= 80_000
  {
    EffectiveBounds(observed, expected);
    DivAdjoint(Effective(observed, expected) * 10_000, expected, 666);
    DivAdjoint(Effective(observed, expected) * 10_000, expected, 80_001);
  }

  /** Both ends are attained. */
  lemma RatioBoundsAttained()
    ensures RatioBps(0, 15) == 666
    ensures RatioBps(1_000, 1) == 80_000
  {}

  lemma EffectiveMonotone(a: nat, b: nat, expected: nat)
    requires a <= b && expected >= 1
    ensures Effective(a, expected) <= Effective(b, expected)
  {}

  /** A slower block never gives a smaller ratio, across every band and both smoothings. */
  lemma RatioMonotone(a: nat, b: nat, expected: nat)
    requires a <= b && expected >= 1
    ensures RatioBps(a, expected) <= RatioBps(b, expected)
  {
    EffectiveMonotone(a, b, expected);
    DivMonotone(Effective(a, expected) * 10_000, Effective(b, expected) * 10_000, expected);
  }

  /** The sign of the correction: at most 100% when the block was on time or early, at least 100% when
      it was on time or late, and strictly below 100% when it was early and a second can be lost. */
  lemma RatioSign(observed: nat, expected: nat)
    requires expected >= 1
    ensures observed <= expected ==> RatioBps(observed, expected) <= 10_000
    ensures observed >= expected ==> RatioBps(observed, expected) >= 10_000
    ensures observed < expected && expected >= 2 ==> RatioBps(observed, expected) < 10_000
  {
    var t := Effective(observed, expected);
    DivAdjoint(t * 10_000, expected, 10_000);
    DivAdjoint(t * 10_000, expected, 10_001);
    if observed < expected && expected >= 2 { assert t <= expected - 1; }
  }

  /** A block solved in at most a quarter of its time at least quarters the ratio. */
  lemma RatioOfFastBlock(observed: nat, expected: nat)
    requires 1 <= observed && 4 * observed <= expected
    ensures RatioBps(observed, expected) <= 2_500
  {
    var t := Effective(observed, expected);
    assert 4 * t <= expected;
    DivAdjoint(t * 10_000, expected, 2_501);
  }

  /** The retarget is monotone both in the observed time and in the current target. */
  lemma NextTargetMonotone(v: nat, w: nat, a: nat, b: nat, expected: nat, minBits: u8, maxBits: u8)
    requires v <= w && a <= b && expected >= 1 && minBits <= maxBits
    ensures NextTarget(v, a, expected, minBits, maxBits) <= NextTarget(w, b, expected, minBits, maxBits)
  {
    RatioMonotone(a, b, expected);
    var p, q := RatioBps(a, expected), RatioBps(b, expected);
    MulMonotone(v, w, p);
    MulMonotone(p, q, w);
    DivMonotone(v * p, w * q, 10_000);
    TargetAntitone(minBits, maxBits);
  }

  lemma NextTargetInBounds(v: nat, observed: nat, expected: nat, minBits: u8, maxBits: u8)
    requires expected >= 1 && minBits <= maxBits
    ensures TargetValue(maxBits) <= NextTarget(v, observed, expected, minBits, maxBits) <= TargetValue(minBits)
    ensures minBits <= BitsOf(NextTarget(v, observed, expected, minBits, maxBits)) <= maxBits
  {
    TargetAntitone(minBits, maxBits);
    BitsWithinBounds(NextTarget(v, observed, expected, minBits, maxBits), minBits, maxBits);
  }

  predicate InBounds(v: nat, minBits: u8, maxBits: u8) {
    TargetValue(maxBits) <= v <= TargetValue(minBits)
  }

  /** Early blocks never raise an in-bounds target and late ones never lower it; an early block lowers
      every target above the floor as soon as a second can be lost. */
  lemma NextTargetSign(v: nat, observed: nat, expected: nat, minBits: u8, maxBits: u8)
    requires expected >= 1 && InBounds(v, minBits, maxBits)
    ensures observed <= expected ==> NextTarget(v, observed, expected, minBits, maxBits) <= v
    ensures observed >= expected ==> NextTarget(v, observed, expected, minBits, maxBits) >= v
    ensures observed < expected && expected >= 2 && v > TargetValue(maxBits)
        ==> NextTarget(v, observed, expected, minBits, maxBits) < v
  {
    RatioSign(observed, expected);
    var r := RatioBps(observed, expected);
    if r <= 10_000 { MulMonotone(r, 10_000, v); } else { MulMonotone(10_000, r, v); }
    if r < 10_000 { MulMonotone(r, 9_999, v); }
  }

  /** A fast block cuts the target to a quarter, or to the floor. */
  lemma FastBlockQuarters(v: nat, observed: nat, expected: nat, minBits: u8, maxBits: u8)
    requires 1 <= observed && 4 * observed <= expected && InBounds(v, minBits, maxBits)
    ensures NextTarget(v, observed, expected, minBits, maxBits) <= Max(v / 4, TargetValue(maxBits))
  {
    RatioOfFastBlock(observed, expected);
    var r := RatioBps(observed, expected);
    MulMonotone(r, 2_500, v);
    DivMonotone(v * r, v * 2_500, 10_000);
    assert v * 2_500 / 10_000 == v / 4;
  }

  /** `v` has been quartered k times, or sits on the floor. */
  predicate Quartered(v0: nat, v: nat, floor: nat, k: nat) {
    v <= floor || v * Pow(4, k) <= v0
  }

  lemma QuarteredStep(v0: nat, v: nat, w: nat, floor: nat, k: nat)
    requires Quartered(v0, v, floor, k) && w <= Max(v / 4, floor)
    ensures Quartered(v0, w, floor, k + 1)
  {
    if w > floor {
      assert 4 * w <= v;
      PowPositive(4, k);
      MulMonotone(4 * w, v, Pow(4, k));
      assert (4 * w) * Pow(4, k) == w * Pow(4, k + 1);
    }
  }

  /** 128 quarterings exhaust any 256-bit number. */
  lemma QuarteredToFloor(v0: nat, v: nat, floor: nat, k: nat)
    requires Quartered(v0, v, floor, k) && v0 < Pow(2, 256) && k >= 128
    ensures v <= floor
  {
    if v > floor {
      Pow4IsPow2(k);
      PowMonotone(2, 256, 2 * k);
      MulMonotone(1, v, Pow(4, k));
    }
  }

  lemma {:induction false} Pow4IsPow2(k: nat)
    ensures Pow(4, k) == Pow(2, 2 * k)
  {
    if k > 0 { Pow4IsPow2(k - 1); }
  }
}
