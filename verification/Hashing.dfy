/** The miner's proof hash: one 72-byte buffer, built once per search and re-used for every nonce. */
module Hashing {
  import opened Ints
  import opened Bytes
  import opened Ledger
  import opened Preimages

  const PAYLOAD_BYTES := 72

  method BuildSolutionPayload(challenge: Bytes32, miner: Pubkey) returns (payload: array<byte>)
    ensures fresh(payload) && payload.Length == PAYLOAD_BYTES
    ensures payload[..64] == challenge + miner
  {
    payload := new byte[PAYLOAD_BYTES](_ => 0);
    forall i | 0 <= i < 32 { payload[i] := challenge[i]; }
    forall i | 0 <= i < 32 { payload[32 + i] := miner[i]; }
  }

  /** Overwrites the nonce and hashes: whatever nonce the buffer held before, the result is the hash of
      the prefix it was built with and this nonce, and the prefix stays in place for the next one. */
  method ComputeSolutionHashFromPayload(sha: Hash, payload: array<byte>, nonce: u64) returns (hash: Bytes32)
    requires payload.Length == PAYLOAD_BYTES
    modifies payload
    ensures payload[..] == old(payload[..64]) + Le8(nonce)
    ensures hash == sha(old(payload[..64]) + Le8(nonce))
  {
    var bytes := Le8(nonce);
    forall i | 0 <= i < 8 { payload[64 + i] := bytes[i]; }
    assert payload[..] == payload[..64] + payload[64..72];
    assert payload[..64] == old(payload[..64]);
    assert payload[64..72] == bytes;
    hash := sha(payload[..]);
  }

  method ComputeSolutionHash(sha: Hash, challenge: Bytes32, miner: Pubkey, nonce: u64) returns (hash: Bytes32)
    ensures hash == sha(ProofPreimage(challenge, miner, nonce))
  {
    var payload := BuildSolutionPayload(challenge, miner);
    hash := ComputeSolutionHashFromPayload(sha, payload, nonce);
  }

  /** The array comparison of the miner decides the program's numeric comparison. */
  predicate HashMeetsTarget(hash: Bytes32, target: Bytes32)
    ensures HashMeetsTarget(hash, target) <==> Val(hash) < Val(target)
  {
    LexIsNumeric(hash, target);
    LexLess(hash, target)
  }
}
