/** What a search engine is asked for and what it owes. */
module Engine {
  import opened Ints
  import opened Bytes
  import opened Wrappers
  import opened Ledger
  import opened Preimages

  datatype SearchInput = SearchInput(
    challenge: Bytes32, miner: Pubkey, target: Bytes32, startNonce: u64, maxAttempts: u64)

  datatype FoundSolution = FoundSolution(nonce: u64, hash: Bytes32, attempts: u64)

  function SolutionHash(sha: Hash, input: SearchInput, nonce: u64): Bytes32 {
    sha(ProofPreimage(input.challenge, input.miner, nonce))
  }

  /** The nonce passes the program's own check. */
  predicate Solves(sha: Hash, input: SearchInput, nonce: u64) {
    Val(SolutionHash(sha, input, nonce)) < Val(input.target)
  }

  /** The k-th nonce of a window; nonces wrap around at 2^64. */
  function NonceAt(input: SearchInput, k: nat): u64 {
    (input.startNonce + k) % TWO_64
  }

  /** A wrapping addition to a nonce of the window moves on by that many. */
  lemma NonceAdvances(input: SearchInput, k: nat, step: u64)
    ensures NonceAt(input, k + step) == WrapAdd64(NonceAt(input, k), step)
  {
    WrapTwice(input.startNonce + k, step);
  }

  /** A window that starts at nonce k of another continues it. */
  lemma NonceSum(input: SearchInput, next: SearchInput, k: nat, l: nat)
    requires next.startNonce == NonceAt(input, k)
    ensures NonceAt(next, l) == NonceAt(input, k + l)
  {
    WrapTwice(input.startNonce + k, l);
  }

  ghost predicate InWindow(input: SearchInput, nonce: u64) {
    exists k: nat :: k < input.maxAttempts && nonce == NonceAt(input, k)
  }

  ghost predicate WindowSolvable(sha: Hash, input: SearchInput) {
    exists k: nat :: k < input.maxAttempts && Solves(sha, input, NonceAt(input, k))
  }

  /** A solution the program would accept, from inside the window. */
  ghost predicate Valid(sha: Hash, input: SearchInput, found: FoundSolution) {
    && InWindow(input, found.nonce)
    && found.hash == SolutionHash(sha, input, found.nonce)
    && Solves(sha, input, found.nonce)
  }

  /** The contract of a search: nothing is returned exactly when the window holds no solution, and what
      is returned is valid. */
  ghost predicate Answers(sha: Hash, input: SearchInput, result: Option<FoundSolution>) {
    match result
    case None => !WindowSolvable(sha, input)
    case Some(found) => Valid(sha, input, found)
  }
}
