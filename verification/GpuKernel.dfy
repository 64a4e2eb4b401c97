/** The OpenCL kernel's own SHA-256 for 72-byte messages and its target comparison, loop by loop. */
module GpuKernel {
  import opened Ints
  import opened Powers
  import opened Bytes
  import opened Ledger
  import opened Preimages
  import opened Fips180
  import opened Engine
  import opened GpuSearch

  /** `(n >> 8 * i) & 0xff` on an unsigned 64-bit value. */
  function ByteOf(n: u64, i: nat): byte {
    PowPositive(256, i);
    n / Pow(256, i) % 256
  }

  lemma {:induction false} BigEndianBytes(n: nat, len: nat, i: nat)
    requires i < len
    ensures Pow(256, len - 1 - i) > 0 && Encode(n, len)[i] == n / Pow(256, len - 1 - i) % 256
  {
    PowPositive(256, len - 1 - i);
    if i < len - 1 {
      BigEndianBytes(n / 256, len - 1, i);
      DivTwice(n, 256, Pow(256, len - 2 - i));
    }
  }

  lemma {:induction false} LittleEndianBytes(n: nat, len: nat, i: nat)
    requires i < len
    ensures Pow(256, i) > 0 && LeEncode(n, len)[i] == n / Pow(256, i) % 256
  {
    PowPositive(256, i);
    if i > 0 {
      LittleEndianBytes(n / 256, len - 1, i - 1);
      DivTwice(n, 256, Pow(256, i - 1));
    }
  }

  lemma DivTwice(n: nat, a: nat, b: nat)
    requires a > 0 && b > 0
    ensures a * b > 0 && n / a / b == n / (a * b)
  {
    MulMonotone(1, a, b);
    var q := n / a / b;
    var r := (n / a % b) * a + n % a;
    assert n / a == q * b + n / a % b;
    assert n == (q * b + n / a % b) * a + n % a;
    MulMonotone(n / a % b + 1, b, a);
    assert n == q * (a * b) + r by { assert (q * b) * a == q * (a * b); }
    DivUnique(n, a * b, q, r);
  }

  /** The kernel's fixed padding is the standard's padding of a 72-byte message. */
  method PadMessage(message: array<byte>) returns (padded: array<byte>)
    requires message.Length == 72
    ensures fresh(padded) && padded[..] == Padded(message[..])
  {
    hide Encode;
    padded := new byte[128](_ => 0);
    for i := 0 to 128
      invariant forall k :: 0 <= k < i ==> padded[k] == 0
    {
      padded[i] := 0;
    }
    for i := 0 to 72
      invariant forall k :: 0 <= k < i ==> padded[k] == message[k]
      invariant forall k :: i <= k < 128 ==> padded[k] == 0
    {
      padded[i] := message[i];
    }
    padded[72] := 0x80;
    PutLength(padded, 72 * 8);
    assert padded[..] == padded[..72] + [padded[72]] + padded[73..120] + padded[120..];
    assert padded[..72] == message[..];
    assert padded[73..120] == Zeros(47);
  }

  method PutLength(padded: array<byte>, bitLength: u64)
    requires padded.Length == 128
    modifies padded
    ensures forall k :: 0 <= k < 120 ==> padded[k] == old(padded[k])
    ensures padded[120..] == Encode(bitLength, 8)
  {
    hide ByteOf;
    padded[127] := ByteOf(bitLength, 0);
    padded[126] := ByteOf(bitLength, 1);
    padded[125] := ByteOf(bitLength, 2);
    padded[124] := ByteOf(bitLength, 3);
    padded[123] := ByteOf(bitLength, 4);
    padded[122] := ByteOf(bitLength, 5);
    padded[121] := ByteOf(bitLength, 6);
    padded[120] := ByteOf(bitLength, 7);
    LengthBytes(padded[120..], bitLength);
  }

  lemma LengthBytes(s: seq<byte>, n: u64)
    requires |s| == 8 && forall i :: 0 <= i < 8 ==> s[i] == ByteOf(n, 7 - i)
    ensures s == Encode(n, 8)
  {
    forall i: nat | i < 8 ensures s[i] == Encode(n, 8)[i] { BigEndianBytes(n, 8, i); }
  }

  // ----- the kernel's own word functions

  function Rotr32(x: Word, n: Word): Word
    requires 0 < n < 32
  {
    (x >> n) | (x << (32 - n))
  }

  function Ch32(x: Word, y: Word, z: Word): Word { (x & y) ^ (!x & z) }

  function Maj32(x: Word, y: Word, z: Word): Word { (x & y) ^ (x & z) ^ (y & z) }

  function BSig0(x: Word): Word { Xor3(Rotr32(x, 2), Rotr32(x, 13), Rotr32(x, 22)) }

  function BSig1(x: Word): Word { Xor3(Rotr32(x, 6), Rotr32(x, 11), Rotr32(x, 25)) }

  function SSig0(x: Word): Word { Xor3(Rotr32(x, 7), Rotr32(x, 18), x >> 3) }

  function SSig1(x: Word): Word { Xor3(Rotr32(x, 17), Rotr32(x, 19), x >> 10) }

  lemma SameRotations(x: Word, n: Word)
    requires 0 < n < 32
    ensures Rotr32(x, n) == Rotr(x, n)
  {}

  lemma SameSigmas(x: Word)
    ensures BSig0(x) == BigSigma0(x) && BSig1(x) == BigSigma1(x)
    ensures SSig0(x) == SmallSigma0(x) && SSig1(x) == SmallSigma1(x)
  {
    hide Rotr32, Rotr, Xor3;
    SameRotations(x, 2);
    SameRotations(x, 13);
    SameRotations(x, 22);
    SameRotations(x, 6);
    SameRotations(x, 11);
    SameRotations(x, 25);
    SameRotations(x, 7);
    SameRotations(x, 18);
    SameRotations(x, 17);
    SameRotations(x, 19);
  }

  lemma SameChoices(x: Word, y: Word, z: Word)
    ensures Ch32(x, y, z) == Ch(x, y, z) && Maj32(x, y, z) == Maj(x, y, z)
  {}

  /** The message schedule of one block, filled in place. */
  method FillSchedule(padded: array<byte>, offset: nat, w: array<Word>)
    requires offset + 64 <= padded.Length && w.Length == 64 && (padded as object) != w
    modifies w
    ensures forall t :: 0 <= t < 64 ==> w[t] == Schedule(padded[offset..offset + 64], t)
  {
    hide Join, BigSigma0, BigSigma1, SmallSigma0, SmallSigma1, BSig0, BSig1, SSig0, SSig1, Plus, Schedule;
    ghost var block := padded[offset..offset + 64];
    for i := 0 to 16
      invariant forall t :: 0 <= t < i ==> w[t] == Schedule(block, t)
    {
      var j := offset + i * 4;
      ScheduleStart(block, i);
      w[i] := Join(padded[j], padded[j + 1], padded[j + 2], padded[j + 3]);
    }
    for i := 16 to 64
      invariant forall t :: 0 <= t < i ==> w[t] == Schedule(block, t)
    {
      ScheduleStep(block, i);
      SameSigmas(w[i - 2]);
      SameSigmas(w[i - 15]);
      w[i] := Plus(Plus(Plus(SSig1(w[i - 2]), w[i - 7]), SSig0(w[i - 15])), w[i - 16]);
    }
  }

  /** The 64 rounds on eight rotating working variables. */
  method Scramble(ghost block: seq<byte>, w: array<Word>, start: Registers) returns (end: Registers)
    requires |block| == 64 && w.Length == 64 && forall t :: 0 <= t < 64 ==> w[t] == Schedule(block, t)
    ensures end == Rounds(block, 64, start)
  {
    hide Schedule, BigSigma0, BigSigma1, SmallSigma0, SmallSigma1, Ch, Maj, K, Plus;
    hide BSig0, BSig1, SSig0, SSig1, Ch32, Maj32;
    var a, b, c, d, e, f, g, h := start.a, start.b, start.c, start.d, start.e, start.f, start.g, start.h;
    for i := 0 to 64
      invariant Registers(a, b, c, d, e, f, g, h) == Rounds(block, i, start)
    {
      SameSigmas(a);
      SameSigmas(e);
      SameChoices(e, f, g);
      SameChoices(a, b, c);
      var t1 := Plus(Plus(Plus(Plus(h, BSig1(e)), Ch32(e, f, g)), K(i)), w[i]);
      var t2 := Plus(BSig0(a), Maj32(a, b, c));
      h := g;
      g := f;
      f := e;
      e := Plus(d, t1);
      d := c;
      c := b;
      b := a;
      a := Plus(t1, t2);
    }
    end := Registers(a, b, c, d, e, f, g, h);
  }

  /** The kernel's digest is SHA-256 of the message, for every 72-byte message. */
  method Sha256Fixed72(message: array<byte>, digest: array<byte>)
    requires message.Length == 72 && digest.Length == 32 && message != digest
    modifies digest
    ensures digest[..] == Sha256(message[..])
  {
    hide Rounds, Schedule, Padded, InitialHash, Digest;
    var padded := PadMessage(message);
    assert padded.Length == 128 by { PaddedLength(message[..]); }
    var hash := InitialRegisters();
    for block := 0 to 2
      invariant padded[..] == Padded(message[..])
      invariant hash == HashValue(padded[..], block)
    {
      var w := new Word[64];
      var offset := block * 64;
      FillSchedule(padded, offset, w);
      assert padded[..][offset..offset + 64] == padded[offset..offset + 64];
      var end := Scramble(padded[offset..offset + 64], w, hash);
      hash := Add(hash, end);
    }
    WriteDigest(hash, digest);
  }

  method InitialRegisters() returns (hash: Registers)
    ensures hash == InitialHash()
  {
    hash := Registers(0x6a09e667, 0xbb67ae85, 0x3c6ef372, 0xa54ff53a, 0x510e527f, 0x9b05688c, 0x1f83d9ab, 0x5be0cd19);
  }

  /** The eight words, byte by byte, most significant first. */
  method WriteDigest(hash: Registers, digest: array<byte>)
    requires digest.Length == 32
    modifies digest
    ensures digest[..] == Digest(hash)
  {
    hide Split, Digest;
    var outWords := [hash.a, hash.b, hash.c, hash.d, hash.e, hash.f, hash.g, hash.h];
    for i := 0 to 8
      invariant forall k :: 0 <= k < i ==> SplitAt(digest[..], k, outWords[k])
    {
      WriteWord(digest, i, outWords[i]);
    }
    DigestIs(digest[..], hash);
  }

  /** Bytes 4k to 4k + 3 are the word's. */
  predicate SplitAt(s: seq<byte>, k: nat, w: Word)
    requires 4 * k + 4 <= |s|
  {
    var bytes := Split(w);
    s[4 * k] == bytes[0] && s[4 * k + 1] == bytes[1] && s[4 * k + 2] == bytes[2] && s[4 * k + 3] == bytes[3]
  }

  method WriteWord(digest: array<byte>, i: nat, w: Word)
    requires digest.Length == 32 && i < 8
    modifies digest
    ensures SplitAt(digest[..], i, w)
    ensures forall k :: 0 <= k < 32 && !(4 * i <= k < 4 * i + 4) ==> digest[k] == old(digest[k])
  {
    hide Split;
    var bytes := Split(w);
    digest[i * 4] := bytes[0];
    digest[i * 4 + 1] := bytes[1];
    digest[i * 4 + 2] := bytes[2];
    digest[i * 4 + 3] := bytes[3];
  }

  lemma PaddedLength(m: seq<byte>)
    requires |m| == 72
    ensures |Padded(m)| == 128
  {}

  lemma OneIs(s: seq<byte>, k: nat, w: Word)
    requires 4 * k + 4 <= |s| && SplitAt(s, k, w)
    ensures s[4 * k..4 * k + 4] == Split(w)
  {
    hide Split;
  }

  lemma Pieces(s: seq<byte>, n: nat)
    requires n + 16 <= |s|
    ensures s[n..n + 16] == s[n..n + 4] + s[n + 4..n + 8] + s[n + 8..n + 12] + s[n + 12..n + 16]
  {}

  /** Four words in a row. */
  lemma FourAre(s: seq<byte>, k: nat, a: Word, b: Word, c: Word, d: Word)
    requires 4 * k + 16 <= |s|
    requires SplitAt(s, k, a) && SplitAt(s, k + 1, b) && SplitAt(s, k + 2, c) && SplitAt(s, k + 3, d)
    ensures s[4 * k..4 * k + 16] == SplitFour(a, b, c, d)
  {
    hide Split, SplitAt;
    OneIs(s, k, a);
    OneIs(s, k + 1, b);
    OneIs(s, k + 2, c);
    OneIs(s, k + 3, d);
    Pieces(s, 4 * k);
  }

  lemma DigestIs(s: seq<byte>, h: Registers)
    requires |s| == 32
    requires var words := [h.a, h.b, h.c, h.d, h.e, h.f, h.g, h.h];
      forall k :: 0 <= k < 8 ==> SplitAt(s, k, words[k])
    ensures s == Digest(h)
  {
    hide SplitAt, SplitFour;
    var words := [h.a, h.b, h.c, h.d, h.e, h.f, h.g, h.h];
    FourAre(s, 0, words[0], words[1], words[2], words[3]);
    FourAre(s, 4, words[4], words[5], words[6], words[7]);
    assert s == s[0..16] + s[16..32];
  }

  /** The kernel's comparison loop. */
  method HashLtTarget(hash: array<byte>, target: Bytes32) returns (r: int)
    requires hash.Length == 32
    ensures r == if Val(hash[..]) < Val(target) then 1 else 0
  {
    hide Val;
    LexIsNumeric(hash[..], target);
    for i := 0 to 32
      invariant hash[..i] == target[..i]
      invariant LexLess(hash[..], target) <==> LexLess(hash[i..], target[i..])
    {
      assert hash[i..][0] == hash[i] && target[i..][0] == target[i];
      assert hash[i..][1..] == hash[i + 1..] && target[i..][1..] == target[i + 1..];
      if hash[i] < target[i] { return 1; }
      if hash[i] > target[i] { return 0; }
      assert hash[..i + 1] == hash[..i] + [hash[i]] && target[..i + 1] == target[..i] + [target[i]];
    }
    r := 0;
  }

  /** A work item's message: the bytes the program hashes for its nonce. */
  method BuildMessage(challenge: Bytes32, miner: Pubkey, nonce: u64) returns (message: array<byte>)
    ensures fresh(message) && message.Length == 72 && message[..] == ProofPreimage(challenge, miner, nonce)
  {
    message := new byte[72](_ => 0);
    for i := 0 to 32
      invariant forall k :: 0 <= k < i ==> message[k] == challenge[k] && message[32 + k] == miner[k]
    {
      message[i] := challenge[i];
      message[32 + i] := miner[i];
    }
    for i := 0 to 8
      invariant forall k :: 0 <= k < 32 ==> message[k] == challenge[k] && message[32 + k] == miner[k]
      invariant forall k :: 0 <= k < i ==> message[64 + k] == Le8(nonce)[k]
    {
      LittleEndianBytes(nonce, 8, i);
      message[64 + i] := ByteOf(nonce, i);
    }
    assert message[..] == message[..32] + message[32..64] + message[64..];
    assert message[..32] == challenge && message[32..64] == miner && message[64..] == Le8(nonce);
  }

  /** What a work item computes between reading the flag and racing for it: SHA-256 of the very bytes the
      program hashes for its nonce, and whether the program would accept it. This is the digest step of
      GpuSearch, with the hash function made concrete. */
  method TryNonce(p: Launch, gid: u64) returns (digest: array<byte>, wins: bool)
    requires p.sha == Sha256
    ensures fresh(digest) && digest.Length == 32
    ensures digest[..] == SolutionHash(p.sha, p.input, NonceAt(p.input, gid))
    ensures wins <==> Solves(p.sha, p.input, NonceAt(p.input, gid))
    ensures Digested(p, gid) == if wins then Racing(digest[..]) else Left
  {
    hide ProofPreimage, Val, HashValue, Padded, Digest;
    var nonce := WrapAdd64(p.input.startNonce, gid);
    var message := BuildMessage(p.input.challenge, p.input.miner, nonce);
    digest := new byte[32](_ => 0);
    Sha256Fixed72(message, digest);
    var less := HashLtTarget(digest, p.input.target);
    wins := less != 0;
    assert digest[..] == p.sha(ProofPreimage(p.input.challenge, p.input.miner, nonce));
    LexIsNumeric(digest[..], p.input.target);
  }
}
