/** The two-block example digest of SHA-256 that the publisher of FIPS 180-4 gives, derived word by word and
    round by round: each line below is one word of the message schedule or one round with the two words
    it computes. */
module PublishedDigest {
  import opened Bytes
  import opened Fips180

  /** "abcdbcdecdef...nopnopq": fourteen groups of four consecutive letters, each a letter later. */
  function Message(): (m: seq<byte>)
    ensures |m| == 56
  {
    seq(56, i requires 0 <= i < 56 => 'a' as int + i / 4 + i % 4)
  }

  predicate Is(r: Registers, a: Word, b: Word, c: Word, d: Word, e: Word, f: Word, g: Word, h: Word) {
    r.a == a && r.b == b && r.c == c && r.d == d && r.e == e && r.f == f && r.g == g && r.h == h
  }

  predicate Words(block: seq<byte>, t: nat, w0: Word, w1: Word, w2: Word, w3: Word)
    requires |block| == 64 && t < 61
  {
    && Schedule(block, t) == w0 && Schedule(block, t + 1) == w1
    && Schedule(block, t + 2) == w2 && Schedule(block, t + 3) == w3
  }

  // ----- one word, one round

  lemma First(block: seq<byte>, t: nat, b0: byte, b1: byte, b2: byte, b3: byte, w: Word)
    requires |block| == 64 && t < 16
    requires block[4 * t] == b0 && block[4 * t + 1] == b1 && block[4 * t + 2] == b2 && block[4 * t + 3] == b3
    requires Join(b0, b1, b2, b3) == w
    ensures Schedule(block, t) == w
  {
    hide Join, Schedule;
    ScheduleStart(block, t);
  }

  lemma Extend(block: seq<byte>, t: nat, w: Word)
    requires |block| == 64 && 16 <= t < 64
    requires w == Plus(Plus(Plus(SmallSigma1(Schedule(block, t - 2)), Schedule(block, t - 7)),
                            SmallSigma0(Schedule(block, t - 15))), Schedule(block, t - 16))
    ensures Schedule(block, t) == w
  {
    hide Join, SmallSigma0, SmallSigma1, Plus, Schedule;
    ScheduleStep(block, t);
  }

  /** One round: the two new words, and the six that move on. */
  lemma Turn(block: seq<byte>, h: Registers, t: nat, k: Word, w: Word, a: Word, e: Word)
    requires |block| == 64 && t < 64 && K(t) == k && Schedule(block, t) == w
    requires var r := Round(Rounds(block, t, h), k, w); r.a == a && r.e == e
    ensures var r, s := Rounds(block, t, h), Rounds(block, t + 1, h);
      && s.a == a && s.b == r.a && s.c == r.b && s.d == r.c
      && s.e == e && s.f == r.e && s.g == r.f && s.h == r.g
  {
    hide Schedule, Plus, K, BigSigma0, BigSigma1, Ch, Maj;
  }

  // ----- the round constants

  lemma Constants0()
    ensures
      && K(0) == 0x428a2f98 && K(1) == 0x71374491 && K(2) == 0xb5c0fbcf && K(3) == 0xe9b5dba5
      && K(4) == 0x3956c25b && K(5) == 0x59f111f1 && K(6) == 0x923f82a4 && K(7) == 0xab1c5ed5
      && K(8) == 0xd807aa98 && K(9) == 0x12835b01 && K(10) == 0x243185be && K(11) == 0x550c7dc3
      && K(12) == 0x72be5d74 && K(13) == 0x80deb1fe && K(14) == 0x9bdc06a7 && K(15) == 0xc19bf174
  {}

  lemma Constants16()
    ensures
      && K(16) == 0xe49b69c1 && K(17) == 0xefbe4786 && K(18) == 0x0fc19dc6 && K(19) == 0x240ca1cc
      && K(20) == 0x2de92c6f && K(21) == 0x4a7484aa && K(22) == 0x5cb0a9dc && K(23) == 0x76f988da
      && K(24) == 0x983e5152 && K(25) == 0xa831c66d && K(26) == 0xb00327c8 && K(27) == 0xbf597fc7
      && K(28) == 0xc6e00bf3 && K(29) == 0xd5a79147 && K(30) == 0x06ca6351 && K(31) == 0x14292967
  {}

  lemma Constants32()
    ensures
      && K(32) == 0x27b70a85 && K(33) == 0x2e1b2138 && K(34) == 0x4d2c6dfc && K(35) == 0x53380d13
      && K(36) == 0x650a7354 && K(37) == 0x766a0abb && K(38) == 0x81c2c92e && K(39) == 0x92722c85
      && K(40) == 0xa2bfe8a1 && K(41) == 0xa81a664b && K(42) == 0xc24b8b70 && K(43) == 0xc76c51a3
      && K(44) == 0xd192e819 && K(45) == 0xd6990624 && K(46) == 0xf40e3585 && K(47) == 0x106aa070
  {}

  lemma Constants48()
    ensures
      && K(48) == 0x19a4c116 && K(49) == 0x1e376c08 && K(50) == 0x2748774c && K(51) == 0x34b0bcb5
      && K(52) == 0x391c0cb3 && K(53) == 0x4ed8aa4a && K(54) == 0x5b9cca4f && K(55) == 0x682e6ff3
      && K(56) == 0x748f82ee && K(57) == 0x78a5636f && K(58) == 0x84c87814 && K(59) == 0x8cc70208
      && K(60) == 0x90befffa && K(61) == 0xa4506ceb && K(62) == 0xbef9a3f7 && K(63) == 0xc67178f2
  {}

  // ----- the first block

  predicate FirstWords0(block: seq<byte>)
    requires |block| == 64
  {
    && Words(block, 0, 0x61626364, 0x62636465, 0x63646566, 0x64656667)
    && Words(block, 4, 0x65666768, 0x66676869, 0x6768696a, 0x68696a6b)
    && Words(block, 8, 0x696a6b6c, 0x6a6b6c6d, 0x6b6c6d6e, 0x6c6d6e6f)
    && Words(block, 12, 0x6d6e6f70, 0x6e6f7071, 0x80000000, 0x00000000)
  }

  predicate FirstWords16(block: seq<byte>)
    requires |block| == 64
  {
    && Words(block, 16, 0xeb8012ad, 0xa7c3ae92, 0x76e93ba2, 0xba42e743)
    && Words(block, 20, 0x92a92204, 0xd847e75e, 0x9e160036, 0xb280a7cb)
    && Words(block, 24, 0xddeb1516, 0xf36586f4, 0x969cd048, 0xe959d99d)
    && Words(block, 28, 0x6accc0ec, 0xf54cb098, 0x2af1b2da, 0xee59c4c9)
  }

  predicate FirstWords32(block: seq<byte>)
    requires |block| == 64
  {
    && Words(block, 32, 0xa835e16a, 0x1dff4429, 0xd6e15959, 0xc397cd6e)
    && Words(block, 36, 0x6f1801ca, 0x21574205, 0x35ff7a84, 0x9743ee78)
    && Words(block, 40, 0xe44183e7, 0x0d09f00d, 0x9c89af54, 0x042d5bef)
    && Words(block, 44, 0x71f134d0, 0x0f94f463, 0x7e49dc63, 0x6f65c997)
  }

  predicate FirstWords48(block: seq<byte>)
    requires |block| == 64
  {
    && Words(block, 48, 0x0b706583, 0x179312ca, 0x503054e9, 0xba125c39)
    && Words(block, 52, 0x7e9392c9, 0xd5cbaa1e, 0x78e0585d, 0xf6e7611c)
    && Words(block, 56, 0x8ac830ce, 0x8b47a303, 0xfd6e627f, 0x8c6e2c6a)
    && Words(block, 60, 0x4001adf1, 0x1a3dd097, 0xa9df6f62, 0x6aa60a39)
  }

  lemma FirstStart(block: seq<byte>)
    requires |block| == 64
    requires forall i :: 0 <= i < 56 ==> block[i] == Message()[i]
    requires block[56] == 0x80 && forall i :: 57 <= i < 64 ==> block[i] == 0
    ensures FirstWords0(block)
  {
    hide Schedule;
    First(block, 0, 0x61, 0x62, 0x63, 0x64, 0x61626364);
    First(block, 1, 0x62, 0x63, 0x64, 0x65, 0x62636465);
    First(block, 2, 0x63, 0x64, 0x65, 0x66, 0x63646566);
    First(block, 3, 0x64, 0x65, 0x66, 0x67, 0x64656667);
    First(block, 4, 0x65, 0x66, 0x67, 0x68, 0x65666768);
    First(block, 5, 0x66, 0x67, 0x68, 0x69, 0x66676869);
    First(block, 6, 0x67, 0x68, 0x69, 0x6a, 0x6768696a);
    First(block, 7, 0x68, 0x69, 0x6a, 0x6b, 0x68696a6b);
    First(block, 8, 0x69, 0x6a, 0x6b, 0x6c, 0x696a6b6c);
    First(block, 9, 0x6a, 0x6b, 0x6c, 0x6d, 0x6a6b6c6d);
    First(block, 10, 0x6b, 0x6c, 0x6d, 0x6e, 0x6b6c6d6e);
    First(block, 11, 0x6c, 0x6d, 0x6e, 0x6f, 0x6c6d6e6f);
    First(block, 12, 0x6d, 0x6e, 0x6f, 0x70, 0x6d6e6f70);
    First(block, 13, 0x6e, 0x6f, 0x70, 0x71, 0x6e6f7071);
    First(block, 14, 0x80, 0x00, 0x00, 0x00, 0x80000000);
    First(block, 15, 0x00, 0x00, 0x00, 0x00, 0x00000000);
  }

  lemma FirstSchedule16(block: seq<byte>)
    requires |block| == 64 && FirstWords0(block)
    ensures FirstWords16(block)
  {
    hide Schedule;
    Extend(block, 16, 0xeb8012ad);
    Extend(block, 17, 0xa7c3ae92);
    Extend(block, 18, 0x76e93ba2);
    Extend(block, 19, 0xba42e743);
    Extend(block, 20, 0x92a92204);
    Extend(block, 21, 0xd847e75e);
    Extend(block, 22, 0x9e160036);
    Extend(block, 23, 0xb280a7cb);
    Extend(block, 24, 0xddeb1516);
    Extend(block, 25, 0xf36586f4);
    Extend(block, 26, 0x969cd048);
    Extend(block, 27, 0xe959d99d);
    Extend(block, 28, 0x6accc0ec);
    Extend(block, 29, 0xf54cb098);
    Extend(block, 30, 0x2af1b2da);
    Extend(block, 31, 0xee59c4c9);
  }

  lemma FirstSchedule32(block: seq<byte>)
    requires |block| == 64 && FirstWords16(block)
    ensures FirstWords32(block)
  {
    hide Schedule;
    Extend(block, 32, 0xa835e16a);
    Extend(block, 33, 0x1dff4429);
    Extend(block, 34, 0xd6e15959);
    Extend(block, 35, 0xc397cd6e);
    Extend(block, 36, 0x6f1801ca);
    Extend(block, 37, 0x21574205);
    Extend(block, 38, 0x35ff7a84);
    Extend(block, 39, 0x9743ee78);
    Extend(block, 40, 0xe44183e7);
    Extend(block, 41, 0x0d09f00d);
    Extend(block, 42, 0x9c89af54);
    Extend(block, 43, 0x042d5bef);
    Extend(block, 44, 0x71f134d0);
    Extend(block, 45, 0x0f94f463);
    Extend(block, 46, 0x7e49dc63);
    Extend(block, 47, 0x6f65c997);
  }

  lemma FirstSchedule48(block: seq<byte>)
    requires |block| == 64 && FirstWords32(block)
    ensures FirstWords48(block)
  {
    hide Schedule;
    Extend(block, 48, 0x0b706583);
    Extend(block, 49, 0x179312ca);
    Extend(block, 50, 0x503054e9);
    Extend(block, 51, 0xba125c39);
    Extend(block, 52, 0x7e9392c9);
    Extend(block, 53, 0xd5cbaa1e);
    Extend(block, 54, 0x78e0585d);
    Extend(block, 55, 0xf6e7611c);
    Extend(block, 56, 0x8ac830ce);
    Extend(block, 57, 0x8b47a303);
    Extend(block, 58, 0xfd6e627f);
    Extend(block, 59, 0x8c6e2c6a);
    Extend(block, 60, 0x4001adf1);
    Extend(block, 61, 0x1a3dd097);
    Extend(block, 62, 0xa9df6f62);
    Extend(block, 63, 0x6aa60a39);
  }

  lemma FirstRounds0(block: seq<byte>, h: Registers)
    requires |block| == 64 && FirstWords0(block)
    requires Is(Rounds(block, 0, h),
                0x6a09e667, 0xbb67ae85, 0x3c6ef372, 0xa54ff53a, 0x510e527f, 0x9b05688c, 0x1f83d9ab, 0x5be0cd19)
    ensures Is(Rounds(block, 16, h),
               0xc3486194, 0xdd16cbb3, 0xd68e6457, 0x101a4861, 0x1496a54f, 0x9162aded, 0x9243f8af, 0x839a0fc9)
  {
    hide Schedule, Rounds, K;
    Constants0();
    Turn(block, h, 0, 0x428a2f98, 0x61626364, 0x5d6aebb1, 0xfa2a4606);
    Turn(block, h, 1, 0x71374491, 0x62636465, 0x2f2d5fcf, 0x4eb1cfce);
    Turn(block, h, 2, 0xb5c0fbcf, 0x63646566, 0x97651825, 0x62d5c49e);
    Turn(block, h, 3, 0xe9b5dba5, 0x64656667, 0x4a8d64d5, 0x6494841b);
    Turn(block, h, 4, 0x3956c25b, 0x65666768, 0xf921c212, 0x05c4f88a);
    Turn(block, h, 5, 0x59f111f1, 0x66676869, 0x55c8ef48, 0x7ff91c94);
    Turn(block, h, 6, 0x923f82a4, 0x6768696a, 0x485835b7, 0x39a5b2ca);
    Turn(block, h, 7, 0xab1c5ed5, 0x68696a6b, 0xd237e6db, 0xa401d211);
    Turn(block, h, 8, 0xd807aa98, 0x696a6b6c, 0x359f2bce, 0xc09ffec4);
    Turn(block, h, 9, 0x12835b01, 0x6a6b6c6d, 0x3a474b2b, 0x9037b3b8);
    Turn(block, h, 10, 0x243185be, 0x6b6c6d6e, 0xb8e2b4cb, 0x443ed29e);
    Turn(block, h, 11, 0x550c7dc3, 0x6c6d6e6f, 0x1762215c, 0xee1c97a8);
    Turn(block, h, 12, 0x72be5d74, 0x6d6e6f70, 0x101a4861, 0x839a0fc9);
    Turn(block, h, 13, 0x80deb1fe, 0x6e6f7071, 0xd68e6457, 0x9243f8af);
    Turn(block, h, 14, 0x9bdc06a7, 0x80000000, 0xdd16cbb3, 0x9162aded);
    Turn(block, h, 15, 0xc19bf174, 0x00000000, 0xc3486194, 0x1496a54f);
  }

  lemma FirstRounds16(block: seq<byte>, h: Registers)
    requires |block| == 64 && FirstWords16(block)
    requires Is(Rounds(block, 16, h),
                0xc3486194, 0xdd16cbb3, 0xd68e6457, 0x101a4861, 0x1496a54f, 0x9162aded, 0x9243f8af, 0x839a0fc9)
    ensures Is(Rounds(block, 32, h),
               0x5581ab07, 0xeb43f3ed, 0xdf7151a0, 0x74bcf468, 0xdf980085, 0x0635d880, 0x7629c961, 0x72abaecd)
  {
    hide Schedule, Rounds, K;
    Constants16();
    Turn(block, h, 16, 0xe49b69c1, 0xeb8012ad, 0xb9dcacb1, 0xd4f64250);
    Turn(block, h, 17, 0xefbe4786, 0xa7c3ae92, 0x046a193e, 0x885370b6);
    Turn(block, h, 18, 0x0fc19dc6, 0x76e93ba2, 0xf402f058, 0x6f433549);
    Turn(block, h, 19, 0x240ca1cc, 0xba42e743, 0x2139187b, 0x7c304206);
    Turn(block, h, 20, 0x2de92c6f, 0x92a92204, 0xd70ac17d, 0x7cc6b262);
    Turn(block, h, 21, 0x4a7484aa, 0xd847e75e, 0x1b2b66b8, 0xd560b028);
    Turn(block, h, 22, 0x5cb0a9dc, 0x9e160036, 0xae2e2d4f, 0xf074fc95);
    Turn(block, h, 23, 0x76f988da, 0xb280a7cb, 0x59fce6b9, 0xa2c7d51d);
    Turn(block, h, 24, 0x983e5152, 0xddeb1516, 0x4a885065, 0x763597fb);
    Turn(block, h, 25, 0xa831c66d, 0xf36586f4, 0x573221da, 0x36e74eb4);
    Turn(block, h, 26, 0xb00327c8, 0x969cd048, 0x128661da, 0x1162d575);
    Turn(block, h, 27, 0xbf597fc7, 0xe959d99d, 0x73f858af, 0xe77c797f);
    Turn(block, h, 28, 0xc6e00bf3, 0x6accc0ec, 0x74bcf468, 0x72abaecd);
    Turn(block, h, 29, 0xd5a79147, 0xf54cb098, 0xdf7151a0, 0x7629c961);
    Turn(block, h, 30, 0x06ca6351, 0x2af1b2da, 0xeb43f3ed, 0x0635d880);
    Turn(block, h, 31, 0x14292967, 0xee59c4c9, 0x5581ab07, 0xdf980085);
  }

  lemma FirstRounds32(block: seq<byte>, h: Registers)
    requires |block| == 64 && FirstWords32(block)
    requires Is(Rounds(block, 32, h),
                0x5581ab07, 0xeb43f3ed, 0xdf7151a0, 0x74bcf468, 0xdf980085, 0x0635d880, 0x7629c961, 0x72abaecd)
    ensures Is(Rounds(block, 48, h),
               0x13d82741, 0x165be9cd, 0x18f0d19d, 0xde71e2f2, 0xa7802a4d, 0xa483f080, 0x6b88472c, 0xff61c636)
  {
    hide Schedule, Rounds, K;
    Constants32();
    Turn(block, h, 32, 0x27b70a85, 0xa835e16a, 0x9fc905c8, 0xa94d2af1);
    Turn(block, h, 33, 0x2e1b2138, 0x1dff4429, 0x9ce5a62f, 0x6ef3b6bd);
    Turn(block, h, 34, 0x4d2c6dfc, 0xd6e15959, 0x1df8e885, 0x2a9e048e);
    Turn(block, h, 35, 0x53380d13, 0xc397cd6e, 0x0786dce8, 0xde2a21d1);
    Turn(block, h, 36, 0x650a7354, 0x6f1801ca, 0x2c55d3a6, 0xb067c1af);
    Turn(block, h, 37, 0x766a0abb, 0x21574205, 0xa985b4be, 0xf72bf353);
    Turn(block, h, 38, 0x81c2c92e, 0x35ff7a84, 0x91ac9d5d, 0x68d8d590);
    Turn(block, h, 39, 0x92722c85, 0x9743ee78, 0x7e4d30b8, 0x9f5b9b6d);
    Turn(block, h, 40, 0xa2bfe8a1, 0xe44183e7, 0x7e056794, 0x423b26c0);
    Turn(block, h, 41, 0xa81a664b, 0x0d09f00d, 0x508a16ab, 0x45459d97);
    Turn(block, h, 42, 0xc24b8b70, 0x9c89af54, 0xb62c7013, 0x80a92a00);
    Turn(block, h, 43, 0xc76c51a3, 0x042d5bef, 0x167361de, 0x41dd3844);
    Turn(block, h, 44, 0xd192e819, 0x71f134d0, 0xde71e2f2, 0xff61c636);
    Turn(block, h, 45, 0xd6990624, 0x0f94f463, 0x18f0d19d, 0x6b88472c);
    Turn(block, h, 46, 0xf40e3585, 0x7e49dc63, 0x165be9cd, 0xa483f080);
    Turn(block, h, 47, 0x106aa070, 0x6f65c997, 0x13d82741, 0xa7802a4d);
  }

  lemma FirstRounds48(block: seq<byte>, h: Registers)
    requires |block| == 64 && FirstWords48(block)
    requires Is(Rounds(block, 48, h),
                0x13d82741, 0x165be9cd, 0x18f0d19d, 0xde71e2f2, 0xa7802a4d, 0xa483f080, 0x6b88472c, 0xff61c636)
    ensures Is(Rounds(block, 64, h),
               0x1bdc6f6f, 0x86126910, 0xf6f443f8, 0xbcfce922, 0x25d2430a, 0x2fc08f85, 0xacc75916, 0x962d8621)
  {
    hide Schedule, Rounds, K;
    Constants48();
    Turn(block, h, 48, 0x19a4c116, 0x0b706583, 0x017b9d99, 0xaeb10b60);
    Turn(block, h, 49, 0x1e376c08, 0x179312ca, 0x543c99a1, 0x16f134b6);
    Turn(block, h, 50, 0x2748774c, 0x503054e9, 0x758ca97a, 0x100cf2ea);
    Turn(block, h, 51, 0x34b0bcb5, 0xba125c39, 0x81c1cde0, 0x5c47eb7b);
    Turn(block, h, 52, 0x391c0cb3, 0x7e9392c9, 0xb8d55619, 0x1c806a61);
    Turn(block, h, 53, 0x4ed8aa4a, 0xd5cbaa1e, 0x1d6de87a, 0x3443bed4);
    Turn(block, h, 54, 0x5b9cca4f, 0x78e0585d, 0xf907b313, 0x61a41711);
    Turn(block, h, 55, 0x682e6ff3, 0xf6e7611c, 0x9e57c4a0, 0xeec13548);
    Turn(block, h, 56, 0x748f82ee, 0x8ac830ce, 0x71629856, 0x2f6c8c4e);
    Turn(block, h, 57, 0x78a5636f, 0x8b47a303, 0x7c015a2c, 0xcb9d3dd0);
    Turn(block, h, 58, 0x84c87814, 0xfd6e627f, 0x921fccb6, 0x43d8a034);
    Turn(block, h, 59, 0x8cc70208, 0x8c6e2c6a, 0xe18f259a, 0x51e15869);
    Turn(block, h, 60, 0x90befffa, 0x4001adf1, 0xbcfce922, 0x962d8621);
    Turn(block, h, 61, 0xa4506ceb, 0x1a3dd097, 0xf6f443f8, 0xacc75916);
    Turn(block, h, 62, 0xbef9a3f7, 0xa9df6f62, 0x86126910, 0x2fc08f85);
    Turn(block, h, 63, 0xc67178f2, 0x6aa60a39, 0x1bdc6f6f, 0x25d2430a);
  }

  lemma FirstBlock(block: seq<byte>, h: Registers)
    requires |block| == 64 && FirstWords0(block)
    requires Is(h, 0x6a09e667, 0xbb67ae85, 0x3c6ef372, 0xa54ff53a, 0x510e527f, 0x9b05688c, 0x1f83d9ab, 0x5be0cd19)
    ensures Is(Compress(h, block),
               0x85e655d6, 0x417a1795, 0x3363376a, 0x624cde5c, 0x76e09589, 0xcac5f811, 0xcc4b32c1, 0xf20e533a)
  {
    hide Rounds, FirstWords0, FirstWords16, FirstWords32, FirstWords48;
    assert Rounds(block, 0, h) == h by { NoRounds(block, h); }
    FirstSchedule16(block);
    FirstSchedule32(block);
    FirstSchedule48(block);
    FirstRounds0(block, h);
    FirstRounds16(block, h);
    FirstRounds32(block, h);
    FirstRounds48(block, h);
  }

  // ----- the second block

  predicate SecondWords0(block: seq<byte>)
    requires |block| == 64
  {
    && Words(block, 0, 0x00000000, 0x00000000, 0x00000000, 0x00000000)
    && Words(block, 4, 0x00000000, 0x00000000, 0x00000000, 0x00000000)
    && Words(block, 8, 0x00000000, 0x00000000, 0x00000000, 0x00000000)
    && Words(block, 12, 0x00000000, 0x00000000, 0x00000000, 0x000001c0)
  }

  predicate SecondWords16(block: seq<byte>)
    requires |block| == 64
  {
    && Words(block, 16, 0x00000000, 0x00d80000, 0x00000000, 0x00003677)
    && Words(block, 20, 0x00000000, 0x1df5600d, 0x000001c0, 0x1c00501c)
    && Words(block, 24, 0x01b00000, 0x220a8d94, 0x0000a365, 0x177017e7)
    && Words(block, 28, 0x63d38035, 0x090ab713, 0x4c7539ca, 0x0f19a8c9)
  }

  predicate SecondWords32(block: seq<byte>)
    requires |block| == 64
  {
    && Words(block, 32, 0x5df4b0c4, 0xe257036a, 0xc97bb6f1, 0xc5b46f4d)
    && Words(block, 36, 0xf8253c4e, 0xa558d189, 0x78696285, 0xed07117f)
    && Words(block, 40, 0x107358f6, 0x390ae496, 0x565010a2, 0xc51d7d44)
    && Words(block, 44, 0x9e74c972, 0x6614b561, 0x30fc129d, 0x9ac684a8)
  }

  predicate SecondWords48(block: seq<byte>)
    requires |block| == 64
  {
    && Words(block, 48, 0x2b658dbd, 0xe290f793, 0x9eebb24c, 0x9713b5de)
    && Words(block, 52, 0x41061ab7, 0xe022e23b, 0x0772079e, 0x7de22d9c)
    && Words(block, 56, 0xc8b83778, 0x75a79849, 0xd93dbddb, 0x0a036c9d)
    && Words(block, 60, 0xcb4f6ac6, 0x823f97e2, 0xea2f2a7a, 0xb9018b52)
  }

  lemma SecondStart(block: seq<byte>)
    requires |block| == 64
    requires forall i :: 0 <= i < 62 ==> block[i] == 0
    requires block[62] == 0x01 && block[63] == 0xc0
    ensures SecondWords0(block)
  {
    hide Schedule;
    First(block, 0, 0x00, 0x00, 0x00, 0x00, 0x00000000);
    First(block, 1, 0x00, 0x00, 0x00, 0x00, 0x00000000);
    First(block, 2, 0x00, 0x00, 0x00, 0x00, 0x00000000);
    First(block, 3, 0x00, 0x00, 0x00, 0x00, 0x00000000);
    First(block, 4, 0x00, 0x00, 0x00, 0x00, 0x00000000);
    First(block, 5, 0x00, 0x00, 0x00, 0x00, 0x00000000);
    First(block, 6, 0x00, 0x00, 0x00, 0x00, 0x00000000);
    First(block, 7, 0x00, 0x00, 0x00, 0x00, 0x00000000);
    First(block, 8, 0x00, 0x00, 0x00, 0x00, 0x00000000);
    First(block, 9, 0x00, 0x00, 0x00, 0x00, 0x00000000);
    First(block, 10, 0x00, 0x00, 0x00, 0x00, 0x00000000);
    First(block, 11, 0x00, 0x00, 0x00, 0x00, 0x00000000);
    First(block, 12, 0x00, 0x00, 0x00, 0x00, 0x00000000);
    First(block, 13, 0x00, 0x00, 0x00, 0x00, 0x00000000);
    First(block, 14, 0x00, 0x00, 0x00, 0x00, 0x00000000);
    First(block, 15, 0x00, 0x00, 0x01, 0xc0, 0x000001c0);
  }

  lemma SecondSchedule16(block: seq<byte>)
    requires |block| == 64 && SecondWords0(block)
    ensures SecondWords16(block)
  {
    hide Schedule;
    Extend(block, 16, 0x00000000);
    Extend(block, 17, 0x00d80000);
    Extend(block, 18, 0x00000000);
    Extend(block, 19, 0x00003677);
    Extend(block, 20, 0x00000000);
    Extend(block, 21, 0x1df5600d);
    Extend(block, 22, 0x000001c0);
    Extend(block, 23, 0x1c00501c);
    Extend(block, 24, 0x01b00000);
    Extend(block, 25, 0x220a8d94);
    Extend(block, 26, 0x0000a365);
    Extend(block, 27, 0x177017e7);
    Extend(block, 28, 0x63d38035);
    Extend(block, 29, 0x090ab713);
    Extend(block, 30, 0x4c7539ca);
    Extend(block, 31, 0x0f19a8c9);
  }

  lemma SecondSchedule32(block: seq<byte>)
    requires |block| == 64 && SecondWords16(block)
    ensures SecondWords32(block)
  {
    hide Schedule;
    Extend(block, 32, 0x5df4b0c4);
    Extend(block, 33, 0xe257036a);
    Extend(block, 34, 0xc97bb6f1);
    Extend(block, 35, 0xc5b46f4d);
    Extend(block, 36, 0xf8253c4e);
    Extend(block, 37, 0xa558d189);
    Extend(block, 38, 0x78696285);
    Extend(block, 39, 0xed07117f);
    Extend(block, 40, 0x107358f6);
    Extend(block, 41, 0x390ae496);
    Extend(block, 42, 0x565010a2);
    Extend(block, 43, 0xc51d7d44);
    Extend(block, 44, 0x9e74c972);
    Extend(block, 45, 0x6614b561);
    Extend(block, 46, 0x30fc129d);
    Extend(block, 47, 0x9ac684a8);
  }

  lemma SecondSchedule48(block: seq<byte>)
    requires |block| == 64 && SecondWords32(block)
    ensures SecondWords48(block)
  {
    hide Schedule;
    Extend(block, 48, 0x2b658dbd);
    Extend(block, 49, 0xe290f793);
    Extend(block, 50, 0x9eebb24c);
    Extend(block, 51, 0x9713b5de);
    Extend(block, 52, 0x41061ab7);
    Extend(block, 53, 0xe022e23b);
    Extend(block, 54, 0x0772079e);
    Extend(block, 55, 0x7de22d9c);
    Extend(block, 56, 0xc8b83778);
    Extend(block, 57, 0x75a79849);
    Extend(block, 58, 0xd93dbddb);
    Extend(block, 59, 0x0a036c9d);
    Extend(block, 60, 0xcb4f6ac6);
    Extend(block, 61, 0x823f97e2);
    Extend(block, 62, 0xea2f2a7a);
    Extend(block, 63, 0xb9018b52);
  }

  lemma SecondRounds0(block: seq<byte>, h: Registers)
    requires |block| == 64 && SecondWords0(block)
    requires Is(Rounds(block, 0, h),
                0x85e655d6, 0x417a1795, 0x3363376a, 0x624cde5c, 0x76e09589, 0xcac5f811, 0xcc4b32c1, 0xf20e533a)
    ensures Is(Rounds(block, 16, h),
               0x16a8cc79, 0x0cea5cbc, 0xd74080fa, 0x35ee996d, 0x0fcb1f6f, 0x60356548, 0x68aa893f, 0x5c24e2a2)
  {
    hide Schedule, Rounds, K;
    Constants0();
    Turn(block, h, 0, 0x428a2f98, 0x00000000, 0x7c20c838, 0x4670ae6e);
    Turn(block, h, 1, 0x71374491, 0x00000000, 0x7c3c0f86, 0x8c51be64);
    Turn(block, h, 2, 0xb5c0fbcf, 0x00000000, 0xfd1eebdc, 0xaf71b9ea);
    Turn(block, h, 3, 0xe9b5dba5, 0x00000000, 0xf268faa9, 0xe20362ef);
    Turn(block, h, 4, 0x3956c25b, 0x00000000, 0x185a5d79, 0x8dff3001);
    Turn(block, h, 5, 0x59f111f1, 0x00000000, 0x3eeb6c06, 0xfe20cda6);
    Turn(block, h, 6, 0x923f82a4, 0x00000000, 0x89bba3f1, 0x0a34df03);
    Turn(block, h, 7, 0xab1c5ed5, 0x00000000, 0xbf9a93a0, 0x059abdd1);
    Turn(block, h, 8, 0xd807aa98, 0x00000000, 0x2c096744, 0xabfa465b);
    Turn(block, h, 9, 0x12835b01, 0x00000000, 0x2d964e86, 0xaa27ed82);
    Turn(block, h, 10, 0x243185be, 0x00000000, 0x5b35025b, 0x10e77723);
    Turn(block, h, 11, 0x550c7dc3, 0x00000000, 0x5eb4ec40, 0xe11b4548);
    Turn(block, h, 12, 0x72be5d74, 0x00000000, 0x35ee996d, 0x5c24e2a2);
    Turn(block, h, 13, 0x80deb1fe, 0x00000000, 0xd74080fa, 0x68aa893f);
    Turn(block, h, 14, 0x9bdc06a7, 0x00000000, 0x0cea5cbc, 0x60356548);
    Turn(block, h, 15, 0xc19bf174, 0x000001c0, 0x16a8cc79, 0x0fcb1f6f);
  }

  lemma SecondRounds16(block: seq<byte>, h: Registers)
    requires |block| == 64 && SecondWords16(block)
    requires Is(Rounds(block, 16, h),
                0x16a8cc79, 0x0cea5cbc, 0xd74080fa, 0x35ee996d, 0x0fcb1f6f, 0x60356548, 0x68aa893f, 0x5c24e2a2)
    ensures Is(Rounds(block, 32, h),
               0xb0eab1c5, 0x02ef3a5f, 0x1cfa5eb0, 0xd958b529, 0xf6d93952, 0x5da10665, 0x6c49db9f, 0xc2fa99b1)
  {
    hide Schedule, Rounds, K;
    Constants16();
    Turn(block, h, 16, 0xe49b69c1, 0x00000000, 0xf16f634e, 0x8b21cdc1);
    Turn(block, h, 17, 0xefbe4786, 0x00d80000, 0x23dcb6c2, 0xca9182d3);
    Turn(block, h, 18, 0x0fc19dc6, 0x00000000, 0xdcff40fd, 0x69bf7b95);
    Turn(block, h, 19, 0x240ca1cc, 0x00003677, 0x76f1a2bc, 0x0dc84bb1);
    Turn(block, h, 20, 0x2de92c6f, 0x00000000, 0x20aad899, 0xcc4769f2);
    Turn(block, h, 21, 0x4a7484aa, 0x1df5600d, 0xd44dc81a, 0x5bace62d);
    Turn(block, h, 22, 0x5cb0a9dc, 0x000001c0, 0xf13ae55b, 0x966aa287);
    Turn(block, h, 23, 0x76f988da, 0x1c00501c, 0xa4195b91, 0xeddbd6ed);
    Turn(block, h, 24, 0x983e5152, 0x01b00000, 0x4984fa79, 0xa530d939);
    Turn(block, h, 25, 0xa831c66d, 0x220a8d94, 0xaa6cb982, 0x0b5eeea4);
    Turn(block, h, 26, 0xb00327c8, 0x0000a365, 0x9450fbbc, 0x09166dda);
    Turn(block, h, 27, 0xbf597fc7, 0x177017e7, 0x0d936bab, 0x6e495d4b);
    Turn(block, h, 28, 0xc6e00bf3, 0x63d38035, 0xd958b529, 0xc2fa99b1);
    Turn(block, h, 29, 0xd5a79147, 0x090ab713, 0x1cfa5eb0, 0x6c49db9f);
    Turn(block, h, 30, 0x06ca6351, 0x4c7539ca, 0x02ef3a5f, 0x5da10665);
    Turn(block, h, 31, 0x14292967, 0x0f19a8c9, 0xb0eab1c5, 0xf6d93952);
  }

  lemma SecondRounds32(block: seq<byte>, h: Registers)
    requires |block| == 64 && SecondWords32(block)
    requires Is(Rounds(block, 32, h),
                0xb0eab1c5, 0x02ef3a5f, 0x1cfa5eb0, 0xd958b529, 0xf6d93952, 0x5da10665, 0x6c49db9f, 0xc2fa99b1)
    ensures Is(Rounds(block, 48, h),
               0xd7354d5b, 0x0b3303a7, 0x104a7db4, 0x0f154e11, 0xaad55b6b, 0xbbe1c39a, 0x5348e8f6, 0x6f9517cb)
  {
    hide Schedule, Rounds, K;
    Constants32();
    Turn(block, h, 32, 0x27b70a85, 0x5df4b0c4, 0x0bfba73c, 0x8b99e3a9);
    Turn(block, h, 33, 0x2e1b2138, 0xe257036a, 0x4bd1df96, 0x905e44ac);
    Turn(block, h, 34, 0x4d2c6dfc, 0xc97bb6f1, 0x9907f1b6, 0x66c3043d);
    Turn(block, h, 35, 0x53380d13, 0xc5b46f4d, 0xecde4e0d, 0x5dc119e6);
    Turn(block, h, 36, 0x650a7354, 0xf8253c4e, 0x2f11c939, 0xfed4ce1d);
    Turn(block, h, 37, 0x766a0abb, 0xa558d189, 0xd949682b, 0x32d99008);
    Turn(block, h, 38, 0x81c2c92e, 0x78696285, 0xadca7a96, 0xc6cce4ff);
    Turn(block, h, 39, 0x92722c85, 0xed07117f, 0x221b8a5a, 0x0b82c5eb);
    Turn(block, h, 40, 0xa2bfe8a1, 0x107358f6, 0x12d97845, 0xe4213ca2);
    Turn(block, h, 41, 0xa81a664b, 0x390ae496, 0x2c794876, 0xff6759ba);
    Turn(block, h, 42, 0xc24b8b70, 0x565010a2, 0x8300fca2, 0xe0e3457c);
    Turn(block, h, 43, 0xc76c51a3, 0xc51d7d44, 0xf2ad6322, 0xcc48c7f3);
    Turn(block, h, 44, 0xd192e819, 0x9e74c972, 0x0f154e11, 0x6f9517cb);
    Turn(block, h, 45, 0xd6990624, 0x6614b561, 0x104a7db4, 0x5348e8f6);
    Turn(block, h, 46, 0xf40e3585, 0x30fc129d, 0x0b3303a7, 0xbbe1c39a);
    Turn(block, h, 47, 0x106aa070, 0x9ac684a8, 0xd7354d5b, 0xaad55b6b);
  }

  lemma SecondRounds48(block: seq<byte>, h: Registers)
    requires |block| == 64 && SecondWords48(block)
    requires Is(Rounds(block, 48, h),
                0xd7354d5b, 0x0b3303a7, 0x104a7db4, 0x0f154e11, 0xaad55b6b, 0xbbe1c39a, 0x5348e8f6, 0x6f9517cb)
    ensures Is(Rounds(block, 64, h),
               0x9ea7148b, 0x908c2123, 0xb25cef29, 0xa9f181dd, 0x2c5c4ed0, 0x9a392956, 0x2aa1bb13, 0x27ccb387)
  {
    hide Schedule, Rounds, K;
    Constants48();
    Turn(block, h, 48, 0x19a4c116, 0x2b658dbd, 0xb736d7a6, 0x68f25260);
    Turn(block, h, 49, 0x1e376c08, 0xe290f793, 0x2748e5ec, 0xd4b58576);
    Turn(block, h, 50, 0x2748774c, 0x9eebb24c, 0xd8aabcf9, 0x27844711);
    Turn(block, h, 51, 0x34b0bcb5, 0x9713b5de, 0x1a6bcf6a, 0xff5e99d0);
    Turn(block, h, 52, 0x391c0cb3, 0x41061ab7, 0x4eca6fa0, 0x989ed071);
    Turn(block, h, 53, 0x4ed8aa4a, 0xe022e23b, 0xec02560a, 0x7151df8e);
    Turn(block, h, 54, 0x5b9cca4f, 0x0772079e, 0xd9f0c115, 0x624150c4);
    Turn(block, h, 55, 0x682e6ff3, 0x7de22d9c, 0x92952710, 0x226806d6);
    Turn(block, h, 56, 0x748f82ee, 0xc8b83778, 0x20d4d0e4, 0x4e515a4d);
    Turn(block, h, 57, 0x78a5636f, 0x75a79849, 0x4348eb1f, 0xc21eddf9);
    Turn(block, h, 58, 0x84c87814, 0xd93dbddb, 0x286fe5f0, 0x54076664);
    Turn(block, h, 59, 0x8cc70208, 0x0a036c9d, 0x1c4cddd9, 0xf487a853);
    Turn(block, h, 60, 0x90befffa, 0xcb4f6ac6, 0xa9f181dd, 0x27ccb387);
    Turn(block, h, 61, 0xa4506ceb, 0x823f97e2, 0xb25cef29, 0x2aa1bb13);
    Turn(block, h, 62, 0xbef9a3f7, 0xea2f2a7a, 0x908c2123, 0x9a392956);
    Turn(block, h, 63, 0xc67178f2, 0xb9018b52, 0x9ea7148b, 0x2c5c4ed0);
  }

  lemma SecondBlock(block: seq<byte>, h: Registers)
    requires |block| == 64 && SecondWords0(block)
    requires Is(h, 0x85e655d6, 0x417a1795, 0x3363376a, 0x624cde5c, 0x76e09589, 0xcac5f811, 0xcc4b32c1, 0xf20e533a)
    ensures Is(Compress(h, block),
               0x248d6a61, 0xd20638b8, 0xe5c02693, 0x0c3e6039, 0xa33ce459, 0x64ff2167, 0xf6ecedd4, 0x19db06c1)
  {
    hide Rounds, SecondWords0, SecondWords16, SecondWords32, SecondWords48;
    assert Rounds(block, 0, h) == h by { NoRounds(block, h); }
    SecondSchedule16(block);
    SecondSchedule32(block);
    SecondSchedule48(block);
    SecondRounds0(block, h);
    SecondRounds16(block, h);
    SecondRounds32(block, h);
    SecondRounds48(block, h);
  }

  lemma NoRounds(block: seq<byte>, h: Registers)
    requires |block| == 64
    ensures Rounds(block, 0, h) == h
  {}

  // ----- the message and its digest

  lemma LengthBytes()
    ensures Encode(448, 8) == [0, 0, 0, 0, 0, 0, 0x01, 0xc0]
  {}

  lemma PaddedMessage() returns (p: seq<byte>)
    ensures p == Padded(Message()) && |p| == 128
    ensures forall i :: 0 <= i < 56 ==> p[i] == Message()[i]
    ensures p[56] == 0x80 && (forall i :: 57 <= i < 126 ==> p[i] == 0) && p[126] == 0x01 && p[127] == 0xc0
  {
    hide Encode;
    LengthBytes();
    p := Padded(Message());
  }

  lemma Chained(p: seq<byte>, one: seq<byte>, two: seq<byte>)
    requires |one| == |two| == 64 && p == one + two && FirstWords0(one) && SecondWords0(two)
    ensures Is(HashValue(p, 2),
               0x248d6a61, 0xd20638b8, 0xe5c02693, 0x0c3e6039, 0xa33ce459, 0x64ff2167, 0xf6ecedd4, 0x19db06c1)
  {
    hide FirstWords0, SecondWords0, Compress;
    assert p[0..64] == one && p[64..128] == two;
    FirstBlock(one, HashValue(p, 0));
    SecondBlock(two, HashValue(p, 1));
  }

  lemma DigestBytes(h: Registers)
    requires Is(h, 0x248d6a61, 0xd20638b8, 0xe5c02693, 0x0c3e6039, 0xa33ce459, 0x64ff2167, 0xf6ecedd4, 0x19db06c1)
    ensures Digest(h)
         == [0x24, 0x8d, 0x6a, 0x61] + [0xd2, 0x06, 0x38, 0xb8] + [0xe5, 0xc0, 0x26, 0x93] + [0x0c, 0x3e, 0x60, 0x39]
          + [0xa3, 0x3c, 0xe4, 0x59] + [0x64, 0xff, 0x21, 0x67] + [0xf6, 0xec, 0xed, 0xd4] + [0x19, 0xdb, 0x06, 0xc1]
  {
    SplitJoin(0x24, 0x8d, 0x6a, 0x61);
    SplitJoin(0xd2, 0x06, 0x38, 0xb8);
    SplitJoin(0xe5, 0xc0, 0x26, 0x93);
    SplitJoin(0x0c, 0x3e, 0x60, 0x39);
    SplitJoin(0xa3, 0x3c, 0xe4, 0x59);
    SplitJoin(0x64, 0xff, 0x21, 0x67);
    SplitJoin(0xf6, 0xec, 0xed, 0xd4);
    SplitJoin(0x19, 0xdb, 0x06, 0xc1);
  }

  /** The published digest. */
  lemma PublishedExample()
    ensures Sha256(Message())
         == [0x24, 0x8d, 0x6a, 0x61] + [0xd2, 0x06, 0x38, 0xb8] + [0xe5, 0xc0, 0x26, 0x93] + [0x0c, 0x3e, 0x60, 0x39]
          + [0xa3, 0x3c, 0xe4, 0x59] + [0x64, 0xff, 0x21, 0x67] + [0xf6, 0xec, 0xed, 0xd4] + [0x19, 0xdb, 0x06, 0xc1]
  {
    hide Padded, Message, HashValue, Digest, FirstWords0, SecondWords0;
    var p := PaddedMessage();
    FirstStart(p[0..64]);
    SecondStart(p[64..128]);
    assert p == p[0..64] + p[64..128];
    Chained(p, p[0..64], p[64..128]);
    DigestBytes(HashValue(p, 2));
  }
}
