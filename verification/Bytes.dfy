/** The fixed-width integers of the source, as subset types of int: every place where a value is
    stored in one of them carries the proof that it fits. */
module Ints {
  const U8_MAX := 0xff
  const U16_MAX := 0xffff
  const U32_MAX := 0xffff_ffff
  const U64_MAX := 0xffff_ffff_ffff_ffff
  const U128_MAX := 0xffff_ffff_ffff_ffff_ffff_ffff_ffff_ffff
  const I64_MAX := 0x7fff_ffff_ffff_ffff
  const TWO_64 := 0x1_0000_0000_0000_0000

  type u8 = x: int | 0 <= x < 0x100
  type u16 = x: int | 0 <= x < 0x1_0000
  type u32 = x: int | 0 <= x < 0x1_0000_0000
  type u64 = x: int | 0 <= x < 0x1_0000_0000_0000_0000
  type u128 = x: int | 0 <= x < 0x1_0000_0000_0000_0000_0000_0000_0000_0000
  type i64 = x: int | -0x8000_0000_0000_0000 <= x < 0x8000_0000_0000_0000
  /** A clock reading: the model takes clocks to be non-negative. */
  type Timestamp = x: int | 0 <= x < 0x8000_0000_0000_0000

  predicate FitsU64(x: int) { 0 <= x <= U64_MAX }

  predicate FitsI64(x: int) { -I64_MAX - 1 <= x <= I64_MAX }

  function Max(x: int, y: int): int { if x < y then y else x }

  function Min(x: int, y: int): int { if x < y then x else y }

  /** `saturating_mul` and `saturating_add` on u64 and u128. */
  function SatMul64(x: u64, y: u64): u64 { MulNonNegative(x, y); Min(x * y, U64_MAX) }

  function SatAdd64(x: u64, y: u64): u64 { Min(x + y, U64_MAX) }

  function SatMul128(x: u128, y: u128): u128 { MulNonNegative(x, y); Min(x * y, U128_MAX) }

  function WrapAdd64(x: u64, y: u64): u64 { (x + y) % TWO_64 }

  /** Wrapping early or late makes no difference. */
  lemma WrapTwice(a: nat, b: nat)
    ensures (a % TWO_64 + b) % TWO_64 == (a + b) % TWO_64
  {}

  lemma MulNonNegative(x: nat, y: nat)
    ensures x * y >= 0
  {}
}

/** Powers, base-2 logarithms and the non-linear facts the byte arithmetic rests on. */
module Powers {
  function Pow(b: nat, e: nat): nat {
    if e == 0 then 1 else b * Pow(b, e - 1)
  }

  lemma {:induction false} PowAdd(b: nat, x: nat, y: nat)
    ensures Pow(b, x + y) == Pow(b, x) * Pow(b, y)
  {
    if x > 0 {
      PowAdd(b, x - 1, y);
      MulAssociative(b, Pow(b, x - 1), Pow(b, y));
    }
  }

  lemma MulAssociative(x: nat, y: nat, z: nat)
    ensures x * (y * z) == (x * y) * z
  {}

  lemma {:induction false} PowPositive(b: nat, e: nat)
    requires b > 0
    ensures Pow(b, e) > 0
  {
    if e > 0 { PowPositive(b, e - 1); }
  }

  lemma {:induction false} PowMonotone(b: nat, x: nat, y: nat)
    requires b > 0 && x <= y
    ensures Pow(b, x) <= Pow(b, y)
  {
    PowPositive(b, y);
    if x < y {
      PowMonotone(b, x, y - 1);
      PowPositive(b, y - 1);
      assert Pow(b, y) == b * Pow(b, y - 1) >= 1 * Pow(b, y - 1) by { MulMonotone(1, b, Pow(b, y - 1)); }
    }
  }

  lemma {:induction false} Pow2Strict(x: nat, y: nat)
    requires x < y
    ensures 2 * Pow(2, x) <= Pow(2, y)
  {
    PowMonotone(2, x + 1, y);
  }

  /** One byte is eight bits. */
  lemma {:induction false} Pow256IsPow2(n: nat)
    ensures Pow(256, n) == Pow(2, 8 * n)
  {
    if n > 0 {
      Pow256IsPow2(n - 1);
      PowAdd(2, 8, 8 * (n - 1));
      assert Pow(2, 8) == 256;
    }
  }

  /** floor(log2(v)) for v >= 1. */
  function Log2(v: nat): nat {
    if v < 2 then 0 else 1 + Log2(v / 2)
  }

  lemma {:induction false} Log2Bounds(v: nat)
    requires v >= 1
    ensures Pow(2, Log2(v)) <= v < 2 * Pow(2, Log2(v))
  {
    if v >= 2 { Log2Bounds(v / 2); }
  }

  /** The bounds of Log2Bounds determine the logarithm. */
  lemma {:induction false} Log2Unique(v: nat, k: nat)
    requires Pow(2, k) <= v < 2 * Pow(2, k)
    ensures v >= 1 && Log2(v) == k
  {
    PowPositive(2, k);
    Log2Bounds(v);
    if k < Log2(v) { Pow2Strict(k, Log2(v)); }
    if Log2(v) < k { Pow2Strict(Log2(v), k); }
  }

  lemma {:induction false} Log2Monotone(v: nat, w: nat)
    requires 1 <= v <= w
    ensures Log2(v) <= Log2(w)
  {
    Log2Bounds(v);
    Log2Bounds(w);
    if Log2(w) < Log2(v) { Pow2Strict(Log2(w), Log2(v)); }
  }

  lemma MulMonotone(x: int, y: int, z: nat)
    requires x <= y
    ensures x * z <= y * z
  {}

  /** `q` is the floor of n / d exactly when it has a remainder below d. */
  lemma DivUnique(n: int, d: int, q: int, r: int)
    requires 0 <= r < d && n == q * d + r
    ensures n / d == q && n % d == r
  {
    var k := q - n / d;
    assert n == (n / d) * d + n % d;
    assert k * d == n % d - r by { assert q * d - (n / d) * d == (q - n / d) * d; }
    if k > 0 { MulMonotone(1, k, d); } else if k < 0 { MulMonotone(k, -1, d); }
  }

  lemma DivMonotone(x: nat, y: nat, d: nat)
    requires x <= y && d > 0
    ensures x / d <= y / d
  {
    if x / d > y / d { MulMonotone(y / d + 1, x / d, d); }
  }

  /** Dividing is adjoint to multiplying: q <= floor(n / d) iff q * d <= n. */
  lemma DivAdjoint(n: nat, d: nat, q: int)
    requires d > 0
    ensures q <= n / d <==> q * d <= n
  {
    assert n == (n / d) * d + n % d;
    if q <= n / d { MulMonotone(q, n / d, d); } else { MulMonotone(n / d + 1, q, d); }
  }
}

/** Byte strings as big-endian numbers. */
module Bytes {
  import opened Ints
  import opened Powers

  type byte = x: int | 0 <= x < 0x100
  type Bytes32 = s: seq<byte> | |s| == 32 witness seq(32, _ => 0)

  const ZERO_32: Bytes32 := Zeros(32)

  function Zeros(n: nat): (s: seq<byte>)
    ensures |s| == n && forall i :: 0 <= i < n ==> s[i] == 0
  {
    seq(n, _ => 0)
  }

  /** The number a byte string denotes, most significant byte first. */
  function Val(s: seq<byte>): nat {
    if s == [] then 0 else Val(s[..|s| - 1]) * 256 + s[|s| - 1]
  }

  /** The low `len` bytes of n, most significant byte first. */
  function Encode(n: nat, len: nat): (s: seq<byte>)
    ensures |s| == len
  {
    if len == 0 then [] else Encode(n / 256, len - 1) + [n % 256]
  }

  /** The low `len` bytes of n, least significant byte first (`to_le_bytes`). */
  function LeEncode(n: nat, len: nat): (s: seq<byte>)
    ensures |s| == len
  {
    if len == 0 then [] else [n % 256] + LeEncode(n / 256, len - 1)
  }

  function LeVal(s: seq<byte>): nat {
    if s == [] then 0 else s[0] + 256 * LeVal(s[1..])
  }

  lemma {:induction false} LeRoundTrip(n: nat, len: nat)
    requires n < Pow(256, len)
    ensures LeVal(LeEncode(n, len)) == n
  {
    if len > 0 {
      LeRoundTrip(n / 256, len - 1);
      assert LeEncode(n, len)[1..] == LeEncode(n / 256, len - 1);
    }
  }

  /** A u64 is recovered from its eight little-endian bytes. */
  lemma LeRoundTrip64(n: u64)
    ensures LeVal(LeEncode(n, 8)) == n
  {
    assert Pow(256, 8) == TWO_64;
    LeRoundTrip(n, 8);
  }

  lemma {:induction false} ValBound(s: seq<byte>)
    ensures Val(s) < Pow(256, |s|)
  {
    if s != [] { ValBound(s[..|s| - 1]); }
  }

  lemma ValSnoc(s: seq<byte>, b: byte)
    ensures Val(s + [b]) == Val(s) * 256 + b
  {
    assert (s + [b])[..|s|] == s;
  }

  lemma {:induction false} ValConcat(s: seq<byte>, t: seq<byte>)
    ensures Val(s + t) == Val(s) * Pow(256, |t|) + Val(t)
  {
    if t == [] {
      assert s + t == s;
    } else {
      var p, b := t[..|t| - 1], t[|t| - 1];
      ValConcat(s, p);
      assert Val(s + t) == Val(s + p) * 256 + b by { assert s + t == (s + p) + [b]; ValSnoc(s + p, b); }
      assert Val(t) == Val(p) * 256 + b by { assert t == p + [b]; ValSnoc(p, b); }
      ShiftDigit(Val(s), Pow(256, |p|), Val(p), b);
    }
  }

  lemma ShiftDigit(v: nat, p: nat, w: nat, b: nat)
    ensures (v * p + w) * 256 + b == v * (256 * p) + (w * 256 + b)
  {}

  lemma ValCons(b: byte, s: seq<byte>)
    ensures Val([b] + s) == b * Pow(256, |s|) + Val(s)
  {
    ValConcat([b], s);
    assert [b][..0] == [];
    assert Val([b]) == b;
  }

  lemma {:induction false} EncodeVal(s: seq<byte>)
    ensures Encode(Val(s), |s|) == s
  {
    if s != [] {
      var p, b := s[..|s| - 1], s[|s| - 1];
      EncodeVal(p);
      DivUnique(Val(s), 256, Val(p), b);
    }
  }

  lemma {:induction false} ValEncode(n: nat, len: nat)
    requires n < Pow(256, len)
    ensures Val(Encode(n, len)) == n
  {
    if len > 0 {
      ValEncode(n / 256, len - 1);
      ValSnoc(Encode(n / 256, len - 1), n % 256);
    }
  }

  /** The array comparison `a < b` of the source: lexicographic, from the first byte. */
  predicate LexLess(a: seq<byte>, b: seq<byte>)
    requires |a| == |b|
  {
    a != [] && (a[0] < b[0] || (a[0] == b[0] && LexLess(a[1..], b[1..])))
  }

  /** The leading byte decides, whatever the rest is. */
  lemma LeadingByteDecides(x: byte, y: byte, v: nat, w: nat, p: nat)
    requires x < y && v < p
    ensures x * p + v < y * p + w
  {
    MulMonotone(x + 1, y, p);
  }

  /** On strings of one length, lexicographic order is numeric order. */
  lemma {:induction false} LexIsNumeric(a: seq<byte>, b: seq<byte>)
    requires |a| == |b|
    ensures LexLess(a, b) <==> Val(a) < Val(b)
  {
    if a != [] {
      var x, s, y, t := a[0], a[1..], b[0], b[1..];
      var p := Pow(256, |s|);
      assert Val(a) == x * p + Val(s) by { assert a == [x] + s; ValCons(x, s); }
      assert Val(b) == y * p + Val(t) by { assert b == [y] + t; ValCons(y, t); }
      ValBound(s);
      ValBound(t);
      if x < y {
        LeadingByteDecides(x, y, Val(s), Val(t), p);
      } else if y < x {
        LeadingByteDecides(y, x, Val(t), Val(s), p);
      } else {
        LexIsNumeric(s, t);
      }
    }
  }

  lemma {:induction false} ValZeros(s: seq<byte>)
    requires forall i :: 0 <= i < |s| ==> s[i] == 0
    ensures Val(s) == 0
  {
    if s != [] { ValZeros(s[..|s| - 1]); }
  }

  /** A run of 0xff bytes is the largest number of its length. */
  lemma {:induction false} ValOnes(s: seq<byte>)
    requires forall i :: 0 <= i < |s| ==> s[i] == 0xff
    ensures Val(s) == Pow(256, |s|) - 1
  {
    if s != [] { ValOnes(s[..|s| - 1]); }
  }
}
