/** Mining end to end: what a search returns is what the program settles. */
module Mining {
  import opened Ints
  import opened Bytes
  import opened Wrappers
  import opened Rewards
  import opened Ledger
  import opened Accounts
  import opened Preimages
  import opened Protocol
  import opened Engine
  import opened Runs
  import opened Submissions
  import CpuSearch
  import CpuSearchProof

  /** The search for the open block on behalf of a miner. */
  predicate MinesBlock(s: State, miner: Pubkey, input: SearchInput) {
    input.challenge == s.block.challenge && input.miner == miner && input.target == s.block.difficultyTarget
  }

  /** Everything a submission needs besides its nonce. */
  predicate Ready(rt: Runtime, s: State, clock: Clock, miner: Pubkey, account: Pubkey) {
    && CanSign(rt, miner)
    && s.initialized && miner in s.miners && account in s.tokens && s.tokens[account].owner == miner
    && s.config.totalBlocksMined < REWARDED_BLOCKS
    && InSubmitWindow(s, clock.now)
    && Balance(s.lamports, miner) >= FIXED_SUBMIT_FEE_LAMPORTS
    && CanOpenNext(s, s.config.totalBlocksMined + 1, clock.now)
  }

  predicate Accepts(rt: Runtime, s: State, clock: Clock, miner: Pubkey, account: Pubkey, nonce: u64) {
    Submitted(rt, s, clock, miner, nonce, account).Committed?
  }

  lemma NonceSettlesIff(rt: Runtime, s: State, clock: Clock, miner: Pubkey, account: Pubkey, input: SearchInput,
                        nonce: u64)
    requires Reachable(rt, s) && MinesBlock(s, miner, input)
    ensures Accepts(rt, s, clock, miner, account, nonce) <==>
      Ready(rt, s, clock, miner, account) && Engine.Solves(rt.sha, input, nonce)
  {
    hide Submitted, InSubmitWindow, CanOpenNext, ProofPreimage, Val;
    SubmissionCommitsIff(rt, s, clock, miner, nonce, account);
  }

  /** Against a reachable state an engine's answer is the program's: a returned nonce settles the block as
      soon as the submission is otherwise ready, and when nothing is returned no nonce of the window does. */
  lemma AnswerSettles(rt: Runtime, s: State, clock: Clock, miner: Pubkey, account: Pubkey, input: SearchInput,
                      result: Option<FoundSolution>)
    requires Reachable(rt, s) && MinesBlock(s, miner, input) && Answers(rt.sha, input, result)
    ensures match result
            case Some(found) =>
              Accepts(rt, s, clock, miner, account, found.nonce) <==> Ready(rt, s, clock, miner, account)
            case None => forall nonce :: InWindow(input, nonce) ==> !Accepts(rt, s, clock, miner, account, nonce)
  {
    hide Accepts, Ready, Engine.Solves, NonceAt, SolutionHash;
    match result
    case Some(found) => NonceSettlesIff(rt, s, clock, miner, account, input, found.nonce);
    case None =>
      forall nonce | InWindow(input, nonce) ensures !Accepts(rt, s, clock, miner, account, nonce) {
        NonceSettlesIff(rt, s, clock, miner, account, input, nonce);
      }
  }

  /** In particular the multi-threaded search, under every schedule: for a submission that is otherwise
      ready it returns nothing exactly when no nonce of its window settles the block. */
  lemma SearchSettles(rt: Runtime, s: State, clock: Clock, account: Pubkey, p: CpuSearch.Search,
                      schedule: seq<CpuSearch.Action>)
    requires Reachable(rt, s) && p.sha == rt.sha && MinesBlock(s, p.input.miner, p.input)
    requires Ready(rt, s, clock, p.input.miner, account)
    requires CpuSearch.WellFormed(p) && p.input.maxAttempts + p.threads <= TWO_64
    requires CpuSearch.Execute(p, schedule).Some? && CpuSearch.Execute(p, schedule).value.collector.Returned?
    ensures match CpuSearch.Execute(p, schedule).value.solution
            case Some(found) =>
              InWindow(p.input, found.nonce) && Accepts(rt, s, clock, p.input.miner, account, found.nonce)
            case None =>
              forall nonce :: InWindow(p.input, nonce) ==> !Accepts(rt, s, clock, p.input.miner, account, nonce)
  {
    hide Accepts, Ready, Engine.Solves, NonceAt, SolutionHash, CpuSearch.Execute;
    CpuSearchProof.SearchAnswers(p, schedule);
    AnswerSettles(rt, s, clock, p.input.miner, account, p.input, CpuSearch.Execute(p, schedule).value.solution);
  }
}
