/** The byte strings the program hashes. */
module Preimages {
  import opened Ints
  import opened Bytes
  import opened Ledger

  type Hash = seq<byte> -> Bytes32

  /** The bytes of an ASCII tag. */
  function Ascii(s: string): (r: seq<byte>)
    ensures |r| == |s|
  {
    seq(|s|, i requires 0 <= i < |s| => s[i] as int % 256)
  }

  function Le8(n: u64): (r: seq<byte>)
    ensures |r| == 8
  {
    LeEncode(n, 8)
  }

  /** challenge || miner || nonce, the 72 bytes of a proof. */
  function ProofPreimage(challenge: Bytes32, miner: Pubkey, nonce: u64): (p: seq<byte>)
    ensures |p| == 72
  {
    challenge + miner + Le8(nonce)
  }

  function GenesisPreimage(admin: Pubkey, mint: Pubkey, slot: u64, now: Timestamp): (p: seq<byte>)
    ensures |p| == 97
  {
    Ascii("blockmine-genesis") + admin + mint + Le8(slot) + Le8(now)
  }

  function NextPreimage(hash: Bytes32, challenge: Bytes32, miner: Pubkey, nonce: u64, next: u64,
                        slot: u64, now: Timestamp): (p: seq<byte>)
    ensures |p| == 142
  {
    Ascii("blockmine-next") + hash + challenge + miner + Le8(nonce) + Le8(next) + Le8(slot) + Le8(now)
  }

  function RotatePreimage(challenge: Bytes32, caller: Pubkey, stale: u64, next: u64, slot: u64, now: Timestamp)
    : (p: seq<byte>)
    ensures |p| == 118
  {
    Ascii("blockmine-stale-rotate") + challenge + caller + Le8(stale) + Le8(next) + Le8(slot) + Le8(now)
  }

  /** What stands where in the four byte strings; numbers can be read back from their eight bytes. So two
      strings of one kind are equal only if everything that went into them is. */
  lemma ProofLayout(challenge: Bytes32, miner: Pubkey, nonce: u64)
    ensures var p := ProofPreimage(challenge, miner, nonce);
      p[..32] == challenge && p[32..64] == miner && LeVal(p[64..72]) == nonce
  {
    hide LeEncode, LeVal;
    var p := ProofPreimage(challenge, miner, nonce);
    assert p[64..72] == Le8(nonce);
    LeRoundTrip64(nonce);
  }

  lemma GenesisLayout(admin: Pubkey, mint: Pubkey, slot: u64, now: Timestamp)
    ensures var p := GenesisPreimage(admin, mint, slot, now);
      && p[..17] == Ascii("blockmine-genesis") && p[17..49] == admin && p[49..81] == mint
      && LeVal(p[81..89]) == slot && LeVal(p[89..97]) == now
  {
    hide LeEncode, LeVal, Ascii;
    var p := GenesisPreimage(admin, mint, slot, now);
    assert p[81..89] == Le8(slot);
    assert p[89..97] == Le8(now);
    LeRoundTrip64(slot);
    LeRoundTrip64(now);
  }

  lemma NextLayout(hash: Bytes32, challenge: Bytes32, miner: Pubkey, nonce: u64, next: u64, slot: u64, now: Timestamp)
    ensures var p := NextPreimage(hash, challenge, miner, nonce, next, slot, now);
      && p[..14] == Ascii("blockmine-next") && p[14..46] == hash && p[46..78] == challenge && p[78..110] == miner
      && LeVal(p[110..118]) == nonce && LeVal(p[118..126]) == next
      && LeVal(p[126..134]) == slot && LeVal(p[134..142]) == now
  {
    hide LeEncode, LeVal, Ascii;
    var p := NextPreimage(hash, challenge, miner, nonce, next, slot, now);
    assert p[110..118] == Le8(nonce);
    assert p == p[..118] + Le8(next) + Le8(slot) + Le8(now);
    assert p[118..126] == Le8(next);
    assert p[126..134] == Le8(slot);
    assert p[134..142] == Le8(now);
    LeRoundTrip64(nonce);
    LeRoundTrip64(next);
    LeRoundTrip64(slot);
    LeRoundTrip64(now);
  }

  lemma RotateLayout(challenge: Bytes32, caller: Pubkey, stale: u64, next: u64, slot: u64, now: Timestamp)
    ensures var p := RotatePreimage(challenge, caller, stale, next, slot, now);
      && p[..22] == Ascii("blockmine-stale-rotate") && p[22..54] == challenge && p[54..86] == caller
      && LeVal(p[86..94]) == stale && LeVal(p[94..102]) == next
      && LeVal(p[102..110]) == slot && LeVal(p[110..118]) == now
  {
    hide LeEncode, LeVal, Ascii;
    var p := RotatePreimage(challenge, caller, stale, next, slot, now);
    assert p[86..94] == Le8(stale);
    assert p == p[..94] + Le8(next) + Le8(slot) + Le8(now);
    assert p[94..102] == Le8(next);
    assert p[102..110] == Le8(slot);
    assert p[110..118] == Le8(now);
    LeRoundTrip64(stale);
    LeRoundTrip64(next);
    LeRoundTrip64(slot);
    LeRoundTrip64(now);
  }

  /** The number of the block that the hash of a challenge preimage opens, read back from the bytes. */
  function OpenedNumber(p: seq<byte>): nat {
    if |p| == 142 then LeVal(p[118..126])
    else if |p| == 118 then LeVal(p[94..102])
    else 0
  }

  lemma NextOpens(hash: Bytes32, challenge: Bytes32, miner: Pubkey, nonce: u64, next: u64, slot: u64, now: Timestamp)
    ensures OpenedNumber(NextPreimage(hash, challenge, miner, nonce, next, slot, now)) == next
  {
    hide LeVal, NextPreimage;
    NextLayout(hash, challenge, miner, nonce, next, slot, now);
  }

  lemma RotateOpens(challenge: Bytes32, caller: Pubkey, stale: u64, next: u64, slot: u64, now: Timestamp)
    ensures OpenedNumber(RotatePreimage(challenge, caller, stale, next, slot, now)) == next
  {
    hide LeVal, RotatePreimage;
    RotateLayout(challenge, caller, stale, next, slot, now);
  }
}
