/** Which submissions and rotations the program accepts in a reachable state, and what they move. */
module Submissions {
  import opened Ints
  import opened Bytes
  import opened Wrappers
  import opened Rewards
  import opened Ledger
  import opened Accounts
  import opened Preimages
  import opened Protocol
  import opened EventLog
  import opened Sums
  import opened Invariants
  import opened SettlementProof
  import opened Runs
  import Retarget

  /** The time check of a submission. */
  predicate InSubmitWindow(s: State, now: Timestamp) {
    !(s.block.expiresAt > 0 && now > s.block.expiresAt)
  }

  /** The time checks of a rotation. */
  predicate InRotateWindow(s: State, now: Timestamp) {
    s.config.blockTtlSec > 0 && s.block.expiresAt > 0 && now > s.block.expiresAt
  }

  /** With a positive ttl an open block is at every moment in exactly one of the two windows, which
      meet at openedAt + ttl; without one it is always open for submissions and never rotates. */
  lemma WindowsPartition(rt: Runtime, s: State, now: Timestamp)
    requires Reachable(rt, s) && s.initialized && s.block.status == BLOCK_STATUS_OPEN
    ensures s.config.blockTtlSec > 0 ==>
      && s.block.expiresAt == s.block.openedAt + s.config.blockTtlSec
      && (InSubmitWindow(s, now) <==> !InRotateWindow(s, now))
    ensures s.config.blockTtlSec <= 0 ==> InSubmitWindow(s, now) && !InRotateWindow(s, now)
  {
    hide RewardForBlock, Credits, Log, Custody, Agreement, SessionQuotas, Emitted;
    ReachableInv(rt, s);
  }

  /** What is left of the checks of a submission once the invariant holds: neither the pause flag nor
      the reward consistency, the remaining reward, the vault balance, the token transfers or any
      counter can reject it. */
  function Verdict(rt: Runtime, s: State, sub: Submission): Option<Error> {
    match SubmissionAccountsError(s, sub)
    case Some(error) => Some(error)
    case None =>
      if s.config.totalBlocksMined == REWARDED_BLOCKS then Some(BlockClosed)
      else if !InSubmitWindow(s, sub.clock.now) then Some(BlockExpired)
      else if Val(ProofHash(rt, s, sub)) >= Val(s.block.difficultyTarget) then Some(InvalidSolution)
      else if Balance(s.lamports, sub.payer) < FIXED_SUBMIT_FEE_LAMPORTS then Some(InsufficientLamports)
      else if !CanOpenNext(s, s.config.totalBlocksMined + 1, sub.clock.now) then Some(MathOverflow)
      else None
  }

  /** Block numbers and expiries are the only things that can run out. */
  predicate CanOpenNext(s: State, mined: nat, now: Timestamp) {
    s.block.blockNumber < U64_MAX && (mined < REWARDED_BLOCKS ==> NextExpiry(now, s.config.blockTtlSec).Some?)
  }

  /** In every state of the invariant the program accepts or rejects a submission exactly by the
      verdict, and with the verdict's error. */
  lemma ProcessedByVerdict(rt: Runtime, s: State, sub: Submission)
    requires Inv(rt, s)
    ensures match Verdict(rt, s, sub)
            case Some(error) => Processed(rt, s, sub) == Rejected(error)
            case None => Processed(rt, s, sub).Committed?
  {
    hide RewardForBlock, Credits, Log, Agreement, SessionQuotas, Settled, SettledInto, ProofHash, Val;
    if SubmissionAccountsError(s, sub).None? {
      assert s.initialized;
      RewardsNonIncreasing(s.config.totalBlocksMined, s.config.totalBlocksMined);
      RewardWithinRemainder(s.config.totalBlocksMined);
      if SubmissionError(rt, s, sub).None? {
        SettledByVerdict(rt, s, sub);
      }
    }
  }

  /** After its checks a settlement can only fail for want of the submit fee, of a block number or of
      an expiry. */
  lemma SettledByVerdict(rt: Runtime, s: State, sub: Submission)
    requires Inv(rt, s) && SubmissionAccountsError(s, sub).None? && SubmissionError(rt, s, sub).None?
    ensures if Balance(s.lamports, sub.payer) < FIXED_SUBMIT_FEE_LAMPORTS then
              Settled(rt, s, sub) == Failure(InsufficientLamports)
            else if !CanOpenNext(s, s.config.totalBlocksMined + 1, sub.clock.now) then
              Settled(rt, s, sub) == Failure(MathOverflow)
            else Settled(rt, s, sub).Success?
  {
    hide RewardForBlock, SubmissionError, TreasuryFee, Log, Agreement, SessionQuotas, Credits, Supply, Emission,
      Phase, Paid, Credited, Counted, Advanced, Transfer, Pay;
    CheckedReward(rt, s, sub);
    var reward, fee := s.block.blockReward, s.block.blockReward / 100;
    TreasuryFeeOf(s.config.totalBlocksMined);
    assert TreasuryFee(reward, s.config.treasuryFeeBps) == Some(fee);
    PaidByVerdict(rt, s, sub, fee);
    if Balance(s.lamports, sub.payer) >= FIXED_SUBMIT_FEE_LAMPORTS {
      CountersFit(rt, s, sub, fee);
      if FitsU64(s.block.blockNumber + 1) {
        var counted := Counted(s.config, reward, fee).value;
        AdvancedKeeps(s, counted, reward, fee, sub.clock.now);
        RewardsNonIncreasing(s.config.totalBlocksMined + 1, s.config.totalBlocksMined + 1);
      }
    }
  }

  lemma CheckedReward(rt: Runtime, s: State, sub: Submission)
    requires Inv(rt, s) && SubmissionAccountsError(s, sub).None? && SubmissionError(rt, s, sub).None?
    ensures s.initialized && s.config.totalBlocksMined < REWARDED_BLOCKS
    ensures s.block.blockReward == RewardForBlock(s.config.totalBlocksMined) > 0
    ensures s.block.blockReward <= VaultBalance(s)
    ensures FitsU64(s.config.totalBlocksMined + 1)
  {
    hide RewardForBlock, Credits, Log, Agreement, SessionQuotas;
    RewardsNonIncreasing(s.config.totalBlocksMined, s.config.totalBlocksMined);
  }

  lemma TreasuryFeeOf(n: u64)
    ensures TreasuryFee(RewardForBlock(n), 100) == Some(RewardForBlock(n) / 100)
    ensures RewardForBlock(n) > 0 ==> RewardForBlock(n) / 100 > 0
    ensures RewardForBlock(n) % 100 == 0
  {
    hide RewardForBlock;
    RewardSplitsExactly(n);
  }

  lemma PaidByVerdict(rt: Runtime, s: State, sub: Submission, fee: u64)
    requires Inv(rt, s) && SubmissionAccountsError(s, sub).None? && s.initialized
    requires 0 < fee <= s.block.blockReward <= VaultBalance(s)
    ensures if Balance(s.lamports, sub.payer) < FIXED_SUBMIT_FEE_LAMPORTS then
              Paid(s, sub, fee) == Failure(InsufficientLamports)
            else Paid(s, sub, fee).Success?
  {
    hide RewardForBlock, Supply, Log, Agreement, SessionQuotas, Emission, Phase, WonBy, Sum;
    var share := s.block.blockReward - fee;
    TransferSucceeds(s.tokens, s.config.rewardVault, sub.destination, share);
    TransferMoves(s.tokens, s.config.rewardVault, sub.destination, share);
    var rewarded := Transfer(s.tokens, s.config.rewardVault, sub.destination, share).value;
    TransferSucceeds(rewarded, s.config.rewardVault, s.config.treasuryVault, fee);
  }

  /** No counter can overflow: all are bounded by the schedule. */
  lemma CountersFit(rt: Runtime, s: State, sub: Submission, fee: u64)
    requires Inv(rt, s) && SubmissionAccountsError(s, sub).None?
    requires s.block.blockReward == RewardForBlock(s.config.totalBlocksMined) && 100 * fee == s.block.blockReward
    ensures fee <= s.block.blockReward
    ensures Credited(s.miners[sub.miner], s.block.blockReward - fee, sub.clock.now).Some?
    ensures Counted(s.config, s.block.blockReward, fee).Some?
  {
    hide RewardForBlock, Supply, Log, Agreement, SessionQuotas, WonBy, Sum, Phase;
    RewardWithinRemainder(s.config.totalBlocksMined);
    SumAtLeast(Found(s.miners), sub.miner);
    SumAtLeast(Earned(s.miners), sub.miner);
  }

  lemma AdvancedKeeps(s: State, counted: ProtocolConfig, reward: u64, fee: u64, now: Timestamp)
    requires Counted(s.config, reward, fee) == Some(counted) && FitsU64(s.block.blockNumber + 1)
    ensures Advanced(counted, s.block, now).totalBlocksMined == s.config.totalBlocksMined + 1
    ensures Advanced(counted, s.block, now).blockTtlSec == s.config.blockTtlSec
  {
    hide TargetBytes, Retarget.NextTarget, Retarget.BitsOf;
  }

  /** A signed submission in a reachable state commits exactly under the verdict's six conditions. */
  lemma SubmissionCommitsIff(rt: Runtime, s: State, clock: Clock, miner: Pubkey, nonce: u64, destination: Pubkey)
    requires Reachable(rt, s)
    ensures Submitted(rt, s, clock, miner, nonce, destination).Committed? <==>
      && CanSign(rt, miner)
      && s.initialized && miner in s.miners && destination in s.tokens && s.tokens[destination].owner == miner
      && s.config.totalBlocksMined < REWARDED_BLOCKS
      && InSubmitWindow(s, clock.now)
      && Val(rt.sha(ProofPreimage(s.block.challenge, miner, nonce))) < Val(s.block.difficultyTarget)
      && Balance(s.lamports, miner) >= FIXED_SUBMIT_FEE_LAMPORTS
      && CanOpenNext(s, s.config.totalBlocksMined + 1, clock.now)
  {
    hide Processed, RewardForBlock, Credits, Log, Agreement, SessionQuotas, Phase, Val, Emitted;
    ReachableInv(rt, s);
    ProcessedByVerdict(rt, s, Submission(clock, miner, nonce, destination, miner));
  }

  /** The checks that guard against a state that never occurs. */
  predicate Defensive(error: Error) {
    error.ProtocolPaused? || error.InvalidCurrentRewardState? || error.NoRewardsRemaining?
    || error.InsufficientVaultBalance? || error.InsufficientTokens?
  }

  /** In a reachable state no submission and no rotation is ever turned away by a defensive check. */
  lemma DefensiveChecksUnreachable(rt: Runtime, s: State, sub: Submission, clock: Clock, caller: Pubkey)
    requires Reachable(rt, s)
    ensures Processed(rt, s, sub).Rejected? ==> !Defensive(Processed(rt, s, sub).error)
    ensures Rotated(rt, s, clock, caller).Rejected? ==> !Defensive(Rotated(rt, s, clock, caller).error)
  {
    hide Processed, RewardForBlock, Credits, Log, Agreement, SessionQuotas, Emitted, Sum, ProofHash, Val, Supply;
    ReachableInv(rt, s);
    ProcessedByVerdict(rt, s, sub);
    RewardsNonIncreasing(s.config.totalBlocksMined, s.config.totalBlocksMined);
  }

  /** A rotation in a reachable state commits exactly when the block is open and expired and a number
      and an expiry are left. */
  lemma RotationCommitsIff(rt: Runtime, s: State, clock: Clock, caller: Pubkey)
    requires Reachable(rt, s)
    ensures Rotated(rt, s, clock, caller).Committed? <==>
      && CanSign(rt, caller)
      && s.initialized && s.config.totalBlocksMined < REWARDED_BLOCKS
      && InRotateWindow(s, clock.now)
      && CanOpenNext(s, s.config.totalBlocksMined, clock.now)
  {
    hide RewardForBlock, Credits, Log, Agreement, SessionQuotas, Emitted, Sum;
    ReachableInv(rt, s);
    RewardsNonIncreasing(s.config.totalBlocksMined, s.config.totalBlocksMined);
  }

  /** What is left of the checks of a rotation once the invariant holds, in their order. */
  function RotationVerdict(rt: Runtime, s: State, clock: Clock, caller: Pubkey): Option<Error> {
    if !CanSign(rt, caller) then Some(MissingSignature)
    else if !s.initialized then Some(AccountNotInitialized)
    else if s.config.totalBlocksMined == REWARDED_BLOCKS then Some(BlockClosed)
    else if s.config.blockTtlSec <= 0 then Some(StaleBlockRecoveryDisabled)
    else if clock.now <= s.block.openedAt + s.config.blockTtlSec then Some(BlockNotStale)
    else if !CanOpenNext(s, s.config.totalBlocksMined, clock.now) then Some(MathOverflow)
    else None
  }

  /** In a reachable state a rotation is accepted or rejected exactly by that verdict. */
  lemma RotatedByVerdict(rt: Runtime, s: State, clock: Clock, caller: Pubkey)
    requires Reachable(rt, s)
    ensures match RotationVerdict(rt, s, clock, caller)
            case Some(error) => Rotated(rt, s, clock, caller) == Rejected(error)
            case None => Rotated(rt, s, clock, caller).Committed?
  {
    hide RewardForBlock, Credits, Log, Agreement, SessionQuotas, Emitted, Sum;
    ReachableInv(rt, s);
    RewardsNonIncreasing(s.config.totalBlocksMined, s.config.totalBlocksMined);
  }

  /** A rotation leaves emissions, ledgers and records alone; only the number, the difficulty, the
      challenge and the times of the open block change. */
  lemma RotationKeepsEmissions(rt: Runtime, s: State, t: State, clock: Clock, caller: Pubkey)
    requires Reachable(rt, s) && Rotated(rt, s, clock, caller) == Committed(t)
    ensures t.tokens == s.tokens && t.lamports == s.lamports && t.miners == s.miners && t.sessions == s.sessions
    ensures t.config.totalBlocksMined == s.config.totalBlocksMined
    ensures t.config.totalRewardsDistributed == s.config.totalRewardsDistributed
    ensures t.config.totalTreasuryFeesDistributed == s.config.totalTreasuryFeesDistributed
    ensures t.block.status == BLOCK_STATUS_OPEN && t.block.blockReward == s.block.blockReward
    ensures t.config.currentBlockNumber == s.config.currentBlockNumber + 1
    ensures Val(t.block.difficultyTarget) == Retarget.TargetValue(s.config.minDifficultyBits)
    ensures Val(s.block.difficultyTarget) <= Val(t.block.difficultyTarget)
  {
    hide Rotated, RewardForBlock, Credits, Log, SessionQuotas, Emission, TargetBytes, Retarget.TargetValue, Val;
    ReachableInv(rt, s);
    RotationChecks(rt, s, t, clock, caller);
    RotationWrites(rt, s, t, clock, caller);
    OpeningTarget(s.config.minDifficultyBits, s.config.minDifficultyBits, s.config.maxDifficultyBits);
  }

  /** In every reachable state the live block number counts settlements and rotations. */
  lemma NumberCountsOpenings(rt: Runtime, s: State)
    requires Reachable(rt, s)
    ensures s.config.currentBlockNumber == s.config.totalBlocksMined + Total(StaleRotated, s.events)
    ensures s.initialized ==> s.block.blockNumber == s.config.currentBlockNumber
  {
    hide Total, Credits, Emission, Phase;
    ReachableInv(rt, s);
  }

  /** 99% of a reward. */
  function MinerReward(n: u64): int { RewardForBlock(n) - RewardForBlock(n) / 100 }

  /** What a token account gains in a settlement. */
  function TokensReceived(s: State, sub: Submission, k: Pubkey): int {
    var n := s.config.totalBlocksMined;
    (if k == sub.destination then MinerReward(n) else 0)
    + (if k == s.config.treasuryVault then RewardForBlock(n) / 100 else 0)
    - (if k == s.config.rewardVault then RewardForBlock(n) else 0)
  }

  /** What an address gains in SOL: the fee goes from the payer to the treasury wallet, and is nothing to
      an address that is both. */
  function LamportsReceived(s: State, sub: Submission, k: Pubkey): int {
    (if k == s.config.treasuryAuthority then 10_000_000 else 0) - (if k == sub.payer then 10_000_000 else 0)
  }

  lemma SettlementTokens(rt: Runtime, s: State, t: State, sub: Submission)
    requires Inv(rt, s) && Processed(rt, s, sub) == Committed(t)
    ensures s.config.rewardVault in s.tokens && t.tokens.Keys == s.tokens.Keys
    ensures forall k :: k in s.tokens ==> t.tokens[k].amount == s.tokens[k].amount + TokensReceived(s, sub, k)
  {
    hide Processed, Settles, RewardForBlock, Supply, Sum, Paid, Pay, Agreement, Phase, Credits, SessionQuotas, Log,
      Emission;
    var x := ProcessedSettles(rt, s, t, sub);
    SettlementAmounts(rt, s, t, sub, x);
    PaymentEffect(s, sub, x.fee, x.payment);
    var _ := SettlementWrites(rt, s, t, sub, x);
  }

  lemma SettlementLamports(rt: Runtime, s: State, t: State, sub: Submission)
    requires Inv(rt, s) && Processed(rt, s, sub) == Committed(t)
    ensures Sum(t.lamports) == Sum(s.lamports)
    ensures forall k: Pubkey :: Balance(t.lamports, k) == Balance(s.lamports, k) + LamportsReceived(s, sub, k)
    ensures t.config.treasuryAuthority == s.config.treasuryAuthority
    ensures t.config.totalBlocksMined == s.config.totalBlocksMined + 1
  {
    hide Processed, Settles, RewardForBlock, Supply, Sum, Paid, Pay, Agreement, Phase, Credits, SessionQuotas, Log,
      Emission, TargetBytes, Retarget.NextTarget, Retarget.BitsOf;
    var x := ProcessedSettles(rt, s, t, sub);
    SettlementAmounts(rt, s, t, sub, x);
    PaymentEffect(s, sub, x.fee, x.payment);
    PayMoves(s.lamports, sub.payer, s.config.treasuryAuthority, s.config.submitFeeLamports);
    var _ := SettlementWrites(rt, s, t, sub, x);
    SettlementConfig(rt, s, t, sub, x, RetargetedValue(s.config, ObservedSeconds(sub.clock.now, s.block.openedAt)));
  }

  lemma SettlementRecords(rt: Runtime, s: State, t: State, sub: Submission)
    requires Inv(rt, s) && Processed(rt, s, sub) == Committed(t)
    ensures forall k: Pubkey :: k != sub.miner ==> Recorded(t, k) == Recorded(s, k)
    ensures var won := Recorded(s, sub.miner);
      Recorded(t, sub.miner) == Winnings(won.blocks + 1, won.rewards + MinerReward(s.config.totalBlocksMined))
  {
    hide Processed, Settles, RewardForBlock, Supply, Sum, Paid, Pay, Agreement, Phase, Credits, SessionQuotas, Log,
      Emission;
    var x := ProcessedSettles(rt, s, t, sub);
    SettlementAmounts(rt, s, t, sub, x);
    SettlementParts(rt, s, t, sub, x);
    var _ := SettlementWrites(rt, s, t, sub, x);
  }

  /** What one settlement moves: the scheduled reward leaves the vault, 99% to the miner's account and
      1% to the treasury's (also when these are one account); the submit fee goes from the payer to the
      treasury wallet, which therefore gains it exactly when it is not the payer itself; no other balance
      changes, and only this miner's record grows. */
  lemma SettlementMoves(rt: Runtime, s: State, t: State, sub: Submission)
    requires Reachable(rt, s) && Processed(rt, s, sub) == Committed(t)
    ensures s.config.rewardVault in s.tokens && t.tokens.Keys == s.tokens.Keys
    ensures forall k :: k in s.tokens ==> t.tokens[k].amount == s.tokens[k].amount + TokensReceived(s, sub, k)
    ensures Sum(t.lamports) == Sum(s.lamports)
    ensures forall k: Pubkey :: Balance(t.lamports, k) == Balance(s.lamports, k) + LamportsReceived(s, sub, k)
    ensures var treasury := s.config.treasuryAuthority;
      Balance(t.lamports, treasury) == Balance(s.lamports, treasury) + 10_000_000 <==> sub.payer != treasury
    ensures forall k: Pubkey :: k != sub.miner ==> Recorded(t, k) == Recorded(s, k)
    ensures var won := Recorded(s, sub.miner);
      Recorded(t, sub.miner) == Winnings(won.blocks + 1, won.rewards + MinerReward(s.config.totalBlocksMined))
  {
    hide Processed, Inv, Sum, TokensReceived, MinerReward;
    ReachableInv(rt, s);
    SettlementTokens(rt, s, t, sub);
    SettlementLamports(rt, s, t, sub);
    SettlementRecords(rt, s, t, sub);
  }

  /** Registration in a reachable state never disturbs a record; it only adds an empty one or a name. */
  lemma RegistrationKeepsRecords(rt: Runtime, s: State, t: State, miner: Pubkey, nickname: Bytes32)
    requires Reachable(rt, s) && Registered(rt, s, miner, nickname) == Committed(t)
    ensures forall k: Pubkey :: Recorded(t, k) == Recorded(s, k)
    ensures miner in s.miners ==> t.miners[miner] == s.miners[miner].(nickname := t.miners[miner].nickname)
  {
    hide RewardForBlock, WonBy, Sum, Log, Emission, Phase, Agreement;
    ReachableInv(rt, s);
  }

  /** Anyone who can sign can register: a new record is empty and carries the name; an old one keeps everything
      but a name that is replaced by a non-empty one. */
  lemma RegistrationWrites(rt: Runtime, s: State, clock: Clock, miner: Pubkey, nickname: Bytes32)
    requires Reachable(rt, s)
    ensures var outcome := Step(rt, s, clock, RegisterMiner(miner, nickname));
      && (outcome.Committed? <==> CanSign(rt, miner))
      && (outcome.Committed? ==>
        outcome.state == s.(miners := s.miners[miner :=
          if miner !in s.miners then MinerStats(miner, 0, 0, 0, 0, 0, 0, nickname)
          else if nickname == ZERO_32 then s.miners[miner]
          else s.miners[miner].(nickname := nickname)]))
  {
    hide RewardForBlock, Sum, Log, Emission, Phase, Agreement;
    ReachableInv(rt, s);
  }

  /** Only a registered miner can be renamed, and only the name changes. */
  lemma RenamingWrites(rt: Runtime, s: State, clock: Clock, miner: Pubkey, nickname: Bytes32)
    ensures var outcome := Step(rt, s, clock, UpdateNickname(miner, nickname));
      && (outcome.Committed? <==> CanSign(rt, miner) && miner in s.miners)
      && (outcome.Committed? ==>
        && outcome.state == s.(miners := outcome.state.miners)
        && outcome.state.miners.Keys == s.miners.Keys
        && (forall k :: k in s.miners && k != miner ==> outcome.state.miners[k] == s.miners[k])
        && outcome.state.miners[miner] == s.miners[miner].(nickname := nickname))
  {}

  /** Token owners other than the program move what they hold, whatever the program is doing. */
  lemma TransferCommitsIff(rt: Runtime, s: State, clock: Clock, from: Pubkey, to: Pubkey, amount: u64)
    requires Reachable(rt, s)
    ensures Step(rt, s, clock, TransferTokens(from, to, amount)).Committed? <==>
      && from in s.tokens && to in s.tokens
      && CanSign(rt, s.tokens[from].owner) && amount <= s.tokens[from].amount
  {
    hide RewardForBlock, Credits, Log, Agreement, SessionQuotas, Emission, Phase, Supply, Transfer;
    ReachableInv(rt, s);
    if from in s.tokens && to in s.tokens { TransferSucceeds(s.tokens, from, to, amount); }
  }
}
