/** The body of a worker thread, run on its own: `loads(n)` is what its n-th look at the stop flag shows. */
module CpuWorker {
  import opened Ints
  import opened Bytes
  import opened Engine
  import opened CpuSearch
  import Hashing

  /** A worker hashes its nonces in order, re-using one payload buffer, and sends its one message: the
      first of its nonces that solves, or Exhausted after its last attempt or the first stop it sees. */
  method RunWorker(p: Search, i: nat, loads: nat -> bool) returns (message: Message, attempts: u64)
    requires WellFormed(p) && i < p.threads
    ensures match message
            case Found(found) => FoundBy(p, i, found) && found.attempts == attempts && Failed(p, i, attempts - 1)
            case Exhausted => Failed(p, i, attempts) && (attempts == WorkerAttempts(p, i) || loads(attempts))
    ensures attempts <= WorkerAttempts(p, i)
    ensures forall n :: 0 <= n < attempts ==> !loads(n)
  {
    hide WorkerAttempts, Solves;
    var deadlineAttempts := WorkerAttempts(p, i);
    var payload := Hashing.BuildSolutionPayload(p.input.challenge, p.input.miner);
    attempts := 0;
    var nonce: u64 := WrapAdd64(p.input.startNonce, i % TWO_64);
    while attempts < deadlineAttempts && !loads(attempts)
      invariant attempts <= deadlineAttempts && nonce == NonceOf(p, i, attempts)
      invariant payload.Length == Hashing.PAYLOAD_BYTES && payload[..64] == p.input.challenge + p.input.miner
      invariant Failed(p, i, attempts)
      invariant forall n :: 0 <= n < attempts ==> !loads(n)
    {
      var hash := Hashing.ComputeSolutionHashFromPayload(p.sha, payload, nonce);
      assert payload[..64] == p.input.challenge + p.input.miner;
      assert hash == SolutionHash(p.sha, p.input, nonce);
      WorkerAdvances(p, i, attempts);
      attempts := SatAdd64(attempts, 1);
      if Hashing.HashMeetsTarget(hash, p.input.target) {
        SolvesIff(p, nonce, hash);
        return Found(FoundSolution(nonce, hash, attempts)), attempts;
      }
      SolvesIff(p, nonce, hash);
      nonce := WrapAdd64(nonce, p.threads);
    }
    message := Exhausted;
  }

  lemma SolvesIff(p: Search, nonce: u64, hash: Bytes32)
    requires hash == SolutionHash(p.sha, p.input, nonce)
    ensures Solves(p.sha, p.input, nonce) <==> Val(hash) < Val(p.input.target)
  {}
}
