/** SHA-256 as FIPS 180-4 specifies it. */
module Fips180 {
  import opened Bytes

  type Word = bv32

  /** Addition modulo 2^32. */
  function Plus(x: Word, y: Word): Word { x + y }

  // ----- section 4.1.2: the functions on words

  function Rotr(x: Word, n: Word): Word
    requires 0 < n < 32
  {
    (x >> n) | (x << (32 - n))
  }

  function Ch(x: Word, y: Word, z: Word): Word { (x & y) ^ (!x & z) }

  function Maj(x: Word, y: Word, z: Word): Word { (x & y) ^ (x & z) ^ (y & z) }

  function Xor3(x: Word, y: Word, z: Word): Word { x ^ y ^ z }

  function BigSigma0(x: Word): Word { Xor3(Rotr(x, 2), Rotr(x, 13), Rotr(x, 22)) }

  function BigSigma1(x: Word): Word { Xor3(Rotr(x, 6), Rotr(x, 11), Rotr(x, 25)) }

  function SmallSigma0(x: Word): Word { Xor3(Rotr(x, 7), Rotr(x, 18), x >> 3) }

  function SmallSigma1(x: Word): Word { Xor3(Rotr(x, 17), Rotr(x, 19), x >> 10) }

  // ----- sections 4.2.2 and 5.3.3: the constants

  const PRIMES: seq<seq<nat>> := [
    [2, 3, 5, 7, 11, 13, 17, 19],
    [23, 29, 31, 37, 41, 43, 47, 53],
    [59, 61, 67, 71, 73, 79, 83, 89],
    [97, 101, 103, 107, 109, 113, 127, 131],
    [137, 139, 149, 151, 157, 163, 167, 173],
    [179, 181, 191, 193, 197, 199, 211, 223],
    [227, 229, 233, 239, 241, 251, 257, 263],
    [269, 271, 277, 281, 283, 293, 307, 311]]

  const ROUND_CONSTANTS: seq<seq<Word>> := [
    [0x428a2f98, 0x71374491, 0xb5c0fbcf, 0xe9b5dba5, 0x3956c25b, 0x59f111f1, 0x923f82a4, 0xab1c5ed5],
    [0xd807aa98, 0x12835b01, 0x243185be, 0x550c7dc3, 0x72be5d74, 0x80deb1fe, 0x9bdc06a7, 0xc19bf174],
    [0xe49b69c1, 0xefbe4786, 0x0fc19dc6, 0x240ca1cc, 0x2de92c6f, 0x4a7484aa, 0x5cb0a9dc, 0x76f988da],
    [0x983e5152, 0xa831c66d, 0xb00327c8, 0xbf597fc7, 0xc6e00bf3, 0xd5a79147, 0x06ca6351, 0x14292967],
    [0x27b70a85, 0x2e1b2138, 0x4d2c6dfc, 0x53380d13, 0x650a7354, 0x766a0abb, 0x81c2c92e, 0x92722c85],
    [0xa2bfe8a1, 0xa81a664b, 0xc24b8b70, 0xc76c51a3, 0xd192e819, 0xd6990624, 0xf40e3585, 0x106aa070],
    [0x19a4c116, 0x1e376c08, 0x2748774c, 0x34b0bcb5, 0x391c0cb3, 0x4ed8aa4a, 0x5b9cca4f, 0x682e6ff3],
    [0x748f82ee, 0x78a5636f, 0x84c87814, 0x8cc70208, 0x90befffa, 0xa4506ceb, 0xbef9a3f7, 0xc67178f2]]

  const H0: seq<Word> := [
    0x6a09e667, 0xbb67ae85, 0x3c6ef372, 0xa54ff53a, 0x510e527f, 0x9b05688c, 0x1f83d9ab, 0x5be0cd19]

  /** The t-th prime. */
  function Prime(t: nat): nat
    requires t < 64
  {
    PRIMES[t / 8][t % 8]
  }

  function K(t: nat): Word
    requires t < 64
  {
    ROUND_CONSTANTS[t / 8][t % 8]
  }

  /** The whole part of the cube root of p < 343. */
  function CubeRootFloor(p: nat): nat {
    if p < 8 then 1 else if p < 27 then 2 else if p < 64 then 3 else if p < 125 then 4 else if p < 216 then 5 else 6
  }

  /** x is the floor of the cube root of p, times 2^32. */
  predicate IsCubeRoot(x: nat, p: nat) {
    x * x * x <= p * 0x1_0000_0000_0000_0000_0000_0000 < (x + 1) * (x + 1) * (x + 1)
  }

  /** x is the floor of the square root of p, times 2^32. */
  predicate IsSquareRoot(x: nat, p: nat) {
    x * x <= p * 0x1_0000_0000_0000_0000 < (x + 1) * (x + 1)
  }

  /** Entry i of row r of the table, against its prime. */
  predicate RootAt(r: nat, i: nat)
    requires r < 8 && i < 8
  {
    IsCubeRoot(CubeRootFloor(PRIMES[r][i]) * 0x1_0000_0000 + ROUND_CONSTANTS[r][i] as int, PRIMES[r][i])
  }

  lemma Row0(i: nat)
    requires i < 8
    ensures RootAt(0, i)
  {}

  lemma Row1(i: nat)
    requires i < 8
    ensures RootAt(1, i)
  {}

  lemma Row2(i: nat)
    requires i < 8
    ensures RootAt(2, i)
  {}

  lemma Row3(i: nat)
    requires i < 8
    ensures RootAt(3, i)
  {}

  lemma Row4(i: nat)
    requires i < 8
    ensures RootAt(4, i)
  {}

  lemma Row5(i: nat)
    requires i < 8
    ensures RootAt(5, i)
  {}

  lemma Row6(i: nat)
    requires i < 8
    ensures RootAt(6, i)
  {}

  lemma Row7(i: nat)
    requires i < 8
    ensures RootAt(7, i)
  {}

  lemma AnyRow(r: nat, i: nat)
    requires r < 8 && i < 8
    ensures RootAt(r, i)
  {
    hide RootAt;
    match r
    case 0 => Row0(i);
    case 1 => Row1(i);
    case 2 => Row2(i);
    case 3 => Row3(i);
    case 4 => Row4(i);
    case 5 => Row5(i);
    case 6 => Row6(i);
    case _ => Row7(i);
  }

  /** Every round constant is what section 4.2.2 defines it to be: the first 32 bits of the fractional
      part of the cube root of its prime. */
  lemma ConstantsAreCubeRoots(t: nat)
    requires t < 64
    ensures IsCubeRoot(CubeRootFloor(Prime(t)) * 0x1_0000_0000 + K(t) as int, Prime(t))
  {
    hide IsCubeRoot, CubeRootFloor;
    AnyRow(t / 8, t % 8);
  }

  /** The whole part of the square root of p < 25. */
  function SquareRootFloor(p: nat): nat {
    if p < 4 then 1 else if p < 9 then 2 else if p < 16 then 3 else 4
  }

  /** The initial hash value is the same of the square roots of the first eight primes (section 5.3.3). */
  lemma InitialHashIsSquareRoots(i: nat)
    requires i < 8
    ensures IsSquareRoot(SquareRootFloor(Prime(i)) * 0x1_0000_0000 + H0[i] as int, Prime(i))
  {}

  // ----- section 5.1.1: padding

  /** The number of zero bytes between the marker bit's byte and the 64-bit length. */
  function PadLength(n: nat): (k: nat)
    ensures k < 64 && (n + 1 + k) % 64 == 56 && (n + 9 + k) % 64 == 0
  {
    if n % 64 < 56 then 55 - n % 64 else 119 - n % 64
  }

  /** The message, a one bit, zeros, and the length in bits as a 64-bit big-endian number. */
  function Padded(m: seq<byte>): (p: seq<byte>)
    ensures |p| == |m| + 9 + PadLength(|m|) && |p| % 64 == 0
  {
    m + [0x80] + Zeros(PadLength(|m|)) + Encode(8 * |m|, 8)
  }

  // ----- section 6.2: the computation

  datatype Registers = Registers(a: Word, b: Word, c: Word, d: Word, e: Word, f: Word, g: Word, h: Word)

  function InitialHash(): Registers {
    Registers(H0[0], H0[1], H0[2], H0[3], H0[4], H0[5], H0[6], H0[7])
  }

  function Add(x: Registers, y: Registers): Registers {
    Registers(Plus(x.a, y.a), Plus(x.b, y.b), Plus(x.c, y.c), Plus(x.d, y.d),
              Plus(x.e, y.e), Plus(x.f, y.f), Plus(x.g, y.g), Plus(x.h, y.h))
  }

  /** Four bytes side by side, the first one most significant. */
  function Join(b0: byte, b1: byte, b2: byte, b3: byte): Word {
    JoinBits(b0 as bv8, b1 as bv8, b2 as bv8, b3 as bv8)
  }

  function JoinBits(b0: bv8, b1: bv8, b2: bv8, b3: bv8): bv32 {
    ((b0 as bv32) << 24) | ((b1 as bv32) << 16) | ((b2 as bv32) << 8) | (b3 as bv32)
  }

  /** The message schedule of a 64-byte block. */
  function Schedule(block: seq<byte>, t: nat): Word
    requires |block| == 64 && t < 64
  {
    if t < 16 then Join(block[4 * t], block[4 * t + 1], block[4 * t + 2], block[4 * t + 3])
    else
      Plus(Plus(Plus(SmallSigma1(Schedule(block, t - 2)), Schedule(block, t - 7)),
                SmallSigma0(Schedule(block, t - 15))), Schedule(block, t - 16))
  }

  lemma ScheduleStart(block: seq<byte>, t: nat)
    requires |block| == 64 && t < 16
    ensures Schedule(block, t) == Join(block[4 * t], block[4 * t + 1], block[4 * t + 2], block[4 * t + 3])
  {
    hide Join;
  }

  lemma ScheduleStep(block: seq<byte>, t: nat)
    requires |block| == 64 && 16 <= t < 64
    ensures Schedule(block, t)
         == Plus(Plus(Plus(SmallSigma1(Schedule(block, t - 2)), Schedule(block, t - 7)),
                      SmallSigma0(Schedule(block, t - 15))), Schedule(block, t - 16))
  {
    hide Join, SmallSigma0, SmallSigma1, Plus;
  }

  function Round(r: Registers, k: Word, w: Word): Registers {
    var t1 := Plus(Plus(Plus(Plus(r.h, BigSigma1(r.e)), Ch(r.e, r.f, r.g)), k), w);
    var t2 := Plus(BigSigma0(r.a), Maj(r.a, r.b, r.c));
    Registers(Plus(t1, t2), r.a, r.b, r.c, Plus(r.d, t1), r.e, r.f, r.g)
  }

  function Rounds(block: seq<byte>, t: nat, r: Registers): Registers
    requires |block| == 64 && t <= 64
  {
    if t == 0 then r else Round(Rounds(block, t - 1, r), K(t - 1), Schedule(block, t - 1))
  }

  function Compress(h: Registers, block: seq<byte>): Registers
    requires |block| == 64
  {
    Add(h, Rounds(block, 64, h))
  }

  /** The hash value after the first n blocks. */
  function HashValue(padded: seq<byte>, n: nat): Registers
    requires 64 * n <= |padded|
  {
    if n == 0 then InitialHash() else Compress(HashValue(padded, n - 1), padded[64 * (n - 1)..64 * n])
  }

  function Split(w: Word): (s: seq<byte>)
    ensures |s| == 4
  {
    [((w >> 24) & 0xff) as bv8 as byte, ((w >> 16) & 0xff) as bv8 as byte,
     ((w >> 8) & 0xff) as bv8 as byte, (w & 0xff) as bv8 as byte]
  }

  function SplitFour(a: Word, b: Word, c: Word, d: Word): (s: seq<byte>)
    ensures |s| == 16
  {
    Split(a) + Split(b) + Split(c) + Split(d)
  }

  function Digest(h: Registers): Bytes32 {
    SplitFour(h.a, h.b, h.c, h.d) + SplitFour(h.e, h.f, h.g, h.h)
  }

  function Sha256(m: seq<byte>): Bytes32 {
    Digest(HashValue(Padded(m), |Padded(m)| / 64))
  }

  /** Splitting a word undoes joining four bytes, given by their bits. */
  lemma SplitJoin(b0: bv8, b1: bv8, b2: bv8, b3: bv8)
    ensures Split(JoinBits(b0, b1, b2, b3)) == [b0 as byte, b1 as byte, b2 as byte, b3 as byte]
  {
    hide JoinBits;
    SplitJoinBits(b0, b1, b2, b3);
  }

  lemma SplitJoinBits(b0: bv8, b1: bv8, b2: bv8, b3: bv8)
    ensures var w := JoinBits(b0, b1, b2, b3);
      && ((w >> 24) & 0xff) as bv8 == b0 && ((w >> 16) & 0xff) as bv8 == b1
      && ((w >> 8) & 0xff) as bv8 == b2 && (w & 0xff) as bv8 == b3
  {}
}
