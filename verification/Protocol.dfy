/** What every instruction of the program does to the accounts, as a function from state to outcome. */
module Protocol {
  import opened Ints
  import opened Bytes
  import opened Wrappers
  import opened Rewards
  import opened Ledger
  import opened Accounts
  import opened Preimages
  import Retarget

  /** The deployment: the hash function and the program-derived vault authority, for which no
      private key exists. */
  datatype Runtime = Runtime(sha: Hash, vaultAuthority: Pubkey)

  predicate CanSign(rt: Runtime, key: Pubkey) {
    key != DEFAULT_KEY && key != rt.vaultAuthority
  }

  function TargetBytes(v: nat): Bytes32 { Encode(v, 32) }

  /** The expiry of a block opened at `openedAt`; None when the sum leaves i64. */
  function NextExpiry(openedAt: Timestamp, ttl: i64): Option<Timestamp> {
    if ttl > 0 then (if FitsI64(openedAt + ttl) then Some(openedAt + ttl) else None) else Some(0)
  }

  // ----- initialize_protocol

  function InitializeError(rt: Runtime, s: State, a: InitializeAccounts, args: InitializeArgs): Option<Error> {
    if !CanSign(rt, a.admin) then Some(MissingSignature)
    else if s.initialized then Some(AccountInUse)
    else if a.rewardVault !in s.tokens || s.tokens[a.rewardVault].owner != rt.vaultAuthority then
      Some(InvalidRewardVault)
    else if a.treasuryVault !in s.tokens || s.tokens[a.treasuryVault].owner != a.treasuryAuthority then
      Some(InvalidTreasuryVault)
    else if args.halvingInterval == 0 then Some(InvalidHalvingInterval)
    else if args.adjustmentInterval == 0 then Some(InvalidAdjustmentInterval)
    else if args.treasuryFeeBps != 100 then Some(InvalidTreasuryFee)
    else if args.submitFeeLamports != FIXED_SUBMIT_FEE_LAMPORTS then Some(InvalidSubmitFee)
    else if !(args.minDifficultyBits <= args.initialDifficultyBits <= args.maxDifficultyBits) then
      Some(InvalidDifficulty)
    else if args.maxSupply != TOTAL_PROTOCOL_EMISSIONS then Some(InvalidMaxSupply)
    else if args.initialBlockReward != RewardForBlock(0) then Some(InvalidInitialReward)
    else if a.mintDecimals != args.tokenDecimals then Some(InvalidTokenDecimals)
    else if s.tokens[a.rewardVault].amount != TOTAL_PROTOCOL_EMISSIONS then Some(InvalidRewardVaultFunding)
    else if a.rewardVault == a.treasuryVault then Some(InvalidTreasuryConfiguration)
    else None
  }

  function Initialized(rt: Runtime, s: State, clock: Clock, a: InitializeAccounts, args: InitializeArgs): Outcome {
    match InitializeError(rt, s, a, args)
    case Some(error) => Rejected(error)
    case None =>
      match NextExpiry(clock.now, args.blockTtlSec)
      case None => Rejected(MathOverflow)
      case Some(expiresAt) =>
        var era := RewardEraForBlock(0);
        var target := TargetBytes(Retarget.TargetValue(args.initialDifficultyBits));
        var challenge := rt.sha(GenesisPreimage(a.admin, a.blocMint, clock.slot, clock.now));
        Committed(s.(
          initialized := true,
          config := ProtocolConfig(
            a.admin, a.blocMint, a.rewardVault, a.treasuryAuthority, a.treasuryVault,
            TOTAL_PROTOCOL_EMISSIONS, 0, 0, 0, 0, era.reward, args.treasuryFeeBps, args.halvingInterval,
            args.targetBlockTimeSec, args.adjustmentInterval, args.submitFeeLamports, args.blockTtlSec,
            clock.now, 0, args.initialDifficultyBits, args.minDifficultyBits, args.maxDifficultyBits,
            a.mintDecimals, false, target),
          block := CurrentBlock(
            0, challenge, args.initialDifficultyBits, BLOCK_STATUS_OPEN, target, era.reward, clock.now,
            expiresAt, DEFAULT_KEY, 0, ZERO_32, 0),
          events := s.events
            + [BlockOpened(0, challenge, args.initialDifficultyBits, era.index, era.reward, clock.now)]))
  }

  // ----- register_miner and update_nickname

  /** A fresh account is zeroed, so its stored miner key is the default one: only then is the record
      written anew. */
  function RegisteredStats(stored: Option<MinerStats>, miner: Pubkey, nickname: Bytes32): MinerStats {
    match stored
    case None => MinerStats(miner, 0, 0, 0, 0, 0, 0, nickname)
    case Some(stats) =>
      if stats.miner == DEFAULT_KEY then MinerStats(miner, 0, 0, 0, 0, 0, 0, nickname)
      else if nickname != ZERO_32 then stats.(nickname := nickname)
      else stats
  }

  function Registered(rt: Runtime, s: State, miner: Pubkey, nickname: Bytes32): Outcome {
    if !CanSign(rt, miner) then Rejected(MissingSignature)
    else
      var stored := if miner in s.miners then Some(s.miners[miner]) else None;
      Committed(s.(miners := s.miners[miner := RegisteredStats(stored, miner, nickname)]))
  }

  function Renamed(rt: Runtime, s: State, miner: Pubkey, nickname: Bytes32): Outcome {
    if !CanSign(rt, miner) then Rejected(MissingSignature)
    else if miner !in s.miners then Rejected(AccountNotInitialized)
    else Committed(s.(miners := s.miners[miner := s.miners[miner].(nickname := nickname)]))
  }

  // ----- the settlement shared by submit_solution and submit_solution_with_session

  /** One submission: who mined which nonce, where the reward goes and who pays the fee. */
  datatype Submission = Submission(clock: Clock, miner: Pubkey, nonce: u64, destination: Pubkey, payer: Pubkey)

  function ProofHash(rt: Runtime, s: State, sub: Submission): Bytes32 {
    rt.sha(ProofPreimage(s.block.challenge, sub.miner, sub.nonce))
  }

  /** The checks of a submission, in the order in which the program makes them. */
  function SubmissionError(rt: Runtime, s: State, sub: Submission): Option<Error>
    requires s.config.rewardVault in s.tokens
  {
    if s.config.paused then Some(ProtocolPaused)
    else if s.block.status != BLOCK_STATUS_OPEN then Some(BlockClosed)
    else if s.block.expiresAt > 0 && sub.clock.now > s.block.expiresAt then Some(BlockExpired)
    else if s.block.blockReward != RewardForBlock(s.config.totalBlocksMined) then Some(InvalidCurrentRewardState)
    else if !(Val(ProofHash(rt, s, sub)) < Val(s.block.difficultyTarget)) then Some(InvalidSolution)
    else if s.block.blockReward == 0 then Some(NoRewardsRemaining)
    else if s.tokens[s.config.rewardVault].amount < s.block.blockReward then Some(InsufficientVaultBalance)
    else None
  }

  /** The treasury's share, truncated to u64 as the program does; None when it exceeds the reward. */
  function TreasuryFee(reward: u64, bps: u16): (fee: Option<u64>)
    ensures fee.Some? ==> fee.value <= reward
  {
    MulNonNegative(reward, bps);
    var fee := reward * bps / 10_000 % TWO_64;
    if fee <= reward then Some(fee) else None
  }

  /** One more block for the miner; None when a counter would leave u64. */
  function Credited(stats: MinerStats, reward: u64, now: Timestamp): Option<MinerStats> {
    if !FitsU64(stats.totalSubmissions + 1) || !FitsU64(stats.validBlocksFound + 1)
       || !FitsU64(stats.totalRewardsEarned + reward) then None
    else Some(stats.(
      totalSubmissions := stats.totalSubmissions + 1,
      validBlocksFound := stats.validBlocksFound + 1,
      totalRewardsEarned := stats.totalRewardsEarned + reward,
      lastSubmissionTime := now))
  }

  function Counted(config: ProtocolConfig, reward: u64, fee: u64): Option<ProtocolConfig> {
    if !FitsU64(config.totalBlocksMined + 1) || !FitsU64(config.totalRewardsDistributed + reward)
       || !FitsU64(config.totalTreasuryFeesDistributed + fee) then None
    else Some(config.(
      totalBlocksMined := config.totalBlocksMined + 1,
      totalRewardsDistributed := config.totalRewardsDistributed + reward,
      totalTreasuryFeesDistributed := config.totalTreasuryFeesDistributed + fee))
  }

  /** Reward and fee leave the vault, the submit fee goes from the payer to the treasury wallet. */
  datatype Payment = Payment(tokens: Tokens, lamports: Lamports)

  function Paid(s: State, sub: Submission, fee: u64): Result<Payment, Error>
    requires s.config.rewardVault in s.tokens && s.config.treasuryVault in s.tokens && sub.destination in s.tokens
    requires fee <= s.block.blockReward
  {
    var c := s.config;
    match SubmitFeePaid(s, sub.payer)
    case None => Failure(InsufficientLamports)
    case Some(lamports) =>
      match Transfer(s.tokens, c.rewardVault, sub.destination, s.block.blockReward - fee)
      case None => Failure(InsufficientTokens)
      case Some(rewarded) =>
        if fee == 0 then Success(Payment(rewarded, lamports))
        else
          match Transfer(rewarded, c.rewardVault, c.treasuryVault, fee)
          case None => Failure(InsufficientTokens)
          case Some(shared) => Success(Payment(shared, lamports))
  }

  function SubmitFeePaid(s: State, payer: Pubkey): Option<Lamports> {
    if s.config.submitFeeLamports == 0 then Some(s.lamports)
    else Pay(s.lamports, payer, s.config.treasuryAuthority, s.config.submitFeeLamports)
  }

  function ObservedSeconds(now: Timestamp, openedAt: Timestamp): u64 { Max(now - openedAt, 1) }

  function RetargetedValue(config: ProtocolConfig, observed: u64): nat {
    Retarget.NextTarget(Val(config.difficultyTarget), observed, Max(config.targetBlockTimeSec, 1),
                        config.minDifficultyBits, config.maxDifficultyBits)
  }

  /** The config that opens block `next` at difficulty value v. */
  function Reconfigured(config: ProtocolConfig, v: nat, next: u64, now: Timestamp): ProtocolConfig {
    config.(
      difficultyBits := Retarget.BitsOf(v),
      difficultyTarget := TargetBytes(v),
      lastAdjustmentTimestamp := now,
      lastAdjustmentBlock := next,
      currentBlockNumber := next)
  }

  /** The successor of the current block: open while a reward is left, closed and empty after the last. */
  function SuccessorBlock(config: ProtocolConfig, reward: u64, challenge: Bytes32, now: Timestamp, expiresAt: Timestamp)
    : CurrentBlock
  {
    if reward > 0 then
      CurrentBlock(config.currentBlockNumber, challenge, config.difficultyBits, BLOCK_STATUS_OPEN,
                   config.difficultyTarget, reward, now, expiresAt, DEFAULT_KEY, 0, ZERO_32, 0)
    else
      CurrentBlock(config.currentBlockNumber, ZERO_32, config.difficultyBits, BLOCK_STATUS_CLOSED,
                   config.difficultyTarget, 0, now, 0, DEFAULT_KEY, 0, ZERO_32, 0)
  }

  /** A block that opens is announced; the closed block after the last reward is not. */
  function Opening(block: CurrentBlock, era: RewardEra): seq<Event> {
    if era.reward == 0 then []
    else [BlockOpened(block.blockNumber, block.challenge, block.difficultyBits, era.index, block.blockReward,
                      block.openedAt)]
  }

  function Solving(rt: Runtime, s: State, sub: Submission, fee: u64): Event
    requires fee <= s.block.blockReward
  {
    var b := s.block;
    BlockSolved(b.blockNumber, sub.miner, sub.nonce, ProofHash(rt, s, sub), b.challenge, b.difficultyBits,
                b.difficultyTarget, RewardEraForBlock(s.config.totalBlocksMined).index, b.blockReward,
                b.blockReward - fee, fee, s.config.submitFeeLamports, sub.clock.now)
  }

  function Adjusting(before: ProtocolConfig, after: ProtocolConfig, observed: u64): Event {
    DifficultyAdjusted(after.currentBlockNumber, before.difficultyBits, after.difficultyBits, observed,
                       Max(after.targetBlockTimeSec, 1))
  }

  function NextChallengePreimage(rt: Runtime, s: State, sub: Submission, next: u64): seq<byte> {
    NextPreimage(ProofHash(rt, s, sub), s.block.challenge, sub.miner, sub.nonce, next, sub.clock.slot, sub.clock.now)
  }

  /** The retargeted config that opens the block after the current one. */
  function Advanced(counted: ProtocolConfig, block: CurrentBlock, now: Timestamp): ProtocolConfig
    requires FitsU64(block.blockNumber + 1)
  {
    Reconfigured(counted, RetargetedValue(counted, ObservedSeconds(now, block.openedAt)), block.blockNumber + 1, now)
  }

  /** Only an open block expires. */
  function SuccessorExpiry(config: ProtocolConfig, reward: u64, now: Timestamp): Option<Timestamp> {
    if reward > 0 then NextExpiry(now, config.blockTtlSec) else Some(0)
  }

  /** What a settlement computes before it writes: the shares, the new records and the next expiry. */
  datatype Settlement = Settlement(
    fee: u64, payment: Payment, stats: MinerStats, config: ProtocolConfig, expiresAt: Timestamp)

  /** The state in which a settlement leaves the program. */
  function SettledInto(rt: Runtime, s: State, sub: Submission, x: Settlement): State
    requires x.fee <= s.block.blockReward
  {
    var era := RewardEraForBlock(x.config.totalBlocksMined);
    var challenge := rt.sha(NextChallengePreimage(rt, s, sub, x.config.currentBlockNumber));
    var block := SuccessorBlock(x.config, era.reward, challenge, sub.clock.now, x.expiresAt);
    s.(config := x.config,
       block := block,
       miners := s.miners[sub.miner := x.stats],
       tokens := x.payment.tokens,
       lamports := x.payment.lamports,
       events := s.events
         + [Solving(rt, s, sub, x.fee)]
         + (if x.config.difficultyTarget == s.config.difficultyTarget then []
            else [Adjusting(s.config, x.config, ObservedSeconds(sub.clock.now, s.block.openedAt))])
         + Opening(block, era))
  }

  /** A submission that passed its checks: payment, counters, retarget and the next block. */
  function Settled(rt: Runtime, s: State, sub: Submission): Result<Settlement, Error>
    requires SubmissionAccountsError(s, sub).None?
    ensures var r := Settled(rt, s, sub); r.Success? ==> r.value.fee <= s.block.blockReward
  {
    var reward := s.block.blockReward;
    match TreasuryFee(reward, s.config.treasuryFeeBps)
    case None => Failure(if SubmitFeePaid(s, sub.payer).None? then InsufficientLamports else MathOverflow)
    case Some(fee) =>
      match Paid(s, sub, fee)
      case Failure(error) => Failure(error)
      case Success(payment) =>
        match (Credited(s.miners[sub.miner], reward - fee, sub.clock.now), Counted(s.config, reward, fee))
        case (None, _) => Failure(MathOverflow)
        case (_, None) => Failure(MathOverflow)
        case (Some(stats), Some(counted)) =>
          if !FitsU64(s.block.blockNumber + 1) then Failure(MathOverflow)
          else
            var config := Advanced(counted, s.block, sub.clock.now);
            match SuccessorExpiry(config, RewardForBlock(config.totalBlocksMined), sub.clock.now)
            case None => Failure(MathOverflow)
            case Some(expiresAt) => Success(Settlement(fee, payment, stats, config, expiresAt))
  }

  /** The account constraints common to both ways of submitting. */
  function SubmissionAccountsError(s: State, sub: Submission): Option<Error> {
    if !s.initialized || sub.miner !in s.miners then Some(AccountNotInitialized)
    else if s.config.rewardVault !in s.tokens || s.config.treasuryVault !in s.tokens then Some(AccountNotInitialized)
    else if sub.destination !in s.tokens || s.tokens[sub.destination].owner != sub.miner then Some(ConstraintToken)
    else None
  }

  /** `process_submission` behind its account constraints. */
  function Processed(rt: Runtime, s: State, sub: Submission): Outcome {
    match SubmissionAccountsError(s, sub)
    case Some(error) => Rejected(error)
    case None =>
      match SubmissionError(rt, s, sub)
      case Some(error) => Rejected(error)
      case None =>
        match Settled(rt, s, sub)
        case Failure(error) => Rejected(error)
        case Success(x) => Committed(SettledInto(rt, s, sub, x))
  }

  function Submitted(rt: Runtime, s: State, clock: Clock, miner: Pubkey, nonce: u64, destination: Pubkey): Outcome {
    if !CanSign(rt, miner) then Rejected(MissingSignature)
    else Processed(rt, s, Submission(clock, miner, nonce, destination, miner))
  }

  // ----- delegated sessions

  function Authorized(rt: Runtime, s: State, clock: Clock, miner: Pubkey, delegate: Pubkey, expiresAt: i64,
                      maxSubmissions: u64): Outcome
  {
    if !CanSign(rt, miner) then Rejected(MissingSignature)
    else if delegate == DEFAULT_KEY then Rejected(InvalidSessionDelegate)
    else if !(expiresAt == 0 || expiresAt > clock.now) then Rejected(InvalidSessionExpiry)
    else Committed(s.(sessions := s.sessions[miner :=
      MiningSession(miner, delegate, expiresAt, maxSubmissions, 0, clock.now, 0, true)]))
  }

  /** The account constraints on the session. */
  function SessionError(s: State, delegate: Pubkey, miner: Pubkey): Option<Error> {
    if miner !in s.sessions then Some(AccountNotInitialized)
    else if s.sessions[miner].miner != miner then Some(InvalidSessionMiner)
    else if s.sessions[miner].delegate != delegate then Some(InvalidSessionDelegate)
    else if !s.sessions[miner].active then Some(SessionInactive)
    else None
  }

  /** The checks the handler makes itself. */
  function SessionUseError(session: MiningSession, now: Timestamp): Option<Error> {
    if !session.active then Some(SessionInactive)
    else if session.expiresAt > 0 && now > session.expiresAt then Some(SessionExpired)
    else if QuotaReached(session) then Some(SessionInactive)
    else None
  }

  predicate QuotaReached(session: MiningSession) {
    session.maxSubmissions > 0 && session.submissionsUsed >= session.maxSubmissions
  }

  function UsedOnce(session: MiningSession, now: Timestamp): MiningSession
    requires FitsU64(session.submissionsUsed + 1)
  {
    var used := session.(submissionsUsed := session.submissionsUsed + 1, lastUsedAt := now);
    if QuotaReached(used) then used.(active := false) else used
  }

  function SubmittedByDelegate(rt: Runtime, s: State, clock: Clock, delegate: Pubkey, miner: Pubkey, nonce: u64,
                               destination: Pubkey): Outcome
  {
    if !CanSign(rt, delegate) then Rejected(MissingSignature)
    else
      var sub := Submission(clock, miner, nonce, destination, delegate);
      match (SessionError(s, delegate, miner), SubmissionAccountsError(s, sub))
      case (Some(error), _) => Rejected(error)
      case (None, Some(error)) => Rejected(error)
      case (None, None) =>
        var session := s.sessions[miner];
        match SessionUseError(session, clock.now)
        case Some(error) => Rejected(error)
        case None =>
          match Processed(rt, s, sub)
          case Rejected(error) => Rejected(error)
          case Committed(t) =>
            if !FitsU64(session.submissionsUsed + 1) then Rejected(MathOverflow)
            else Committed(t.(sessions := t.sessions[miner := UsedOnce(session, clock.now)]))
  }

  // ----- rotate_stale_block

  function RotationError(s: State, clock: Clock): Option<Error> {
    if s.config.paused then Some(ProtocolPaused)
    else if s.block.status != BLOCK_STATUS_OPEN then Some(BlockClosed)
    else if s.config.blockTtlSec <= 0 then Some(StaleBlockRecoveryDisabled)
    else if s.block.expiresAt <= 0 then Some(StaleBlockRecoveryDisabled)
    else if clock.now <= s.block.expiresAt then Some(BlockNotStale)
    else if s.block.blockReward != RewardForBlock(s.config.totalBlocksMined) then Some(InvalidCurrentRewardState)
    else if !FitsU64(s.block.blockNumber + 1) then Some(MathOverflow)
    else if s.block.blockReward == 0 then Some(NoRewardsRemaining)
    else None
  }

  /** Rotation resets the difficulty to its minimum. */
  function RotatedConfig(config: ProtocolConfig, next: u64, now: Timestamp): ProtocolConfig {
    Reconfigured(config, Retarget.TargetValue(config.minDifficultyBits), next, now)
    .(difficultyBits := config.minDifficultyBits)
  }

  function StaleSeconds(now: Timestamp, openedAt: Timestamp): u64 { Max(now - openedAt, 0) }

  function RotatedChallengePreimage(block: CurrentBlock, clock: Clock, caller: Pubkey, next: u64): seq<byte> {
    RotatePreimage(block.challenge, caller, block.blockNumber, next, clock.slot, clock.now)
  }

  function Rotating(block: CurrentBlock, before: ProtocolConfig, after: ProtocolConfig, caller: Pubkey, era: RewardEra,
                    staleFor: u64, now: Timestamp): Event
  {
    BlockStaleRotated(block.blockNumber, after.currentBlockNumber, caller, before.difficultyBits,
                      after.difficultyBits, era.index, era.reward, staleFor, now)
  }

  function Rotated(rt: Runtime, s: State, clock: Clock, caller: Pubkey): Outcome {
    if !CanSign(rt, caller) then Rejected(MissingSignature)
    else if !s.initialized then Rejected(AccountNotInitialized)
    else
      match (RotationError(s, clock), NextExpiry(clock.now, s.config.blockTtlSec))
      case (Some(error), _) => Rejected(error)
      case (None, None) => Rejected(MathOverflow)
      case (None, Some(expiresAt)) =>
        var config := RotatedConfig(s.config, s.block.blockNumber + 1, clock.now);
        var era := RewardEraForBlock(config.totalBlocksMined);
        var challenge := rt.sha(RotatedChallengePreimage(s.block, clock, caller, config.currentBlockNumber));
        var block := SuccessorBlock(config, era.reward, challenge, clock.now, expiresAt);
        var staleFor := StaleSeconds(clock.now, s.block.openedAt);
        Committed(s.(
          config := config,
          block := block,
          events := s.events
            + [Adjusting(s.config, config, staleFor),
               Rotating(s.block, s.config, config, caller, era, staleFor, clock.now)]
            + Opening(block, era)))
  }

  // ----- the world outside the program

  function TokensMoved(rt: Runtime, s: State, from: Pubkey, to: Pubkey, amount: u64): Outcome {
    if from !in s.tokens || to !in s.tokens then Rejected(AccountNotInitialized)
    else if !CanSign(rt, s.tokens[from].owner) then Rejected(MissingSignature)
    else
      match Transfer(s.tokens, from, to, amount)
      case None => Rejected(InsufficientTokens)
      case Some(tokens) => Committed(s.(tokens := tokens))
  }

  function TokenAccountOpened(s: State, key: Pubkey, owner: Pubkey): Outcome {
    if key in s.tokens then Rejected(AccountInUse)
    else Committed(s.(tokens := s.tokens[key := TokenAccount(owner, 0)]))
  }

  // ----- runs

  function Step(rt: Runtime, s: State, clock: Clock, command: Command): Outcome {
    match command
    case InitializeProtocol(accounts, args) => Initialized(rt, s, clock, accounts, args)
    case RegisterMiner(miner, nickname) => Registered(rt, s, miner, nickname)
    case UpdateNickname(miner, nickname) => Renamed(rt, s, miner, nickname)
    case SubmitSolution(miner, nonce, account) => Submitted(rt, s, clock, miner, nonce, account)
    case AuthorizeSession(miner, delegate, expiresAt, max) => Authorized(rt, s, clock, miner, delegate, expiresAt, max)
    case SubmitWithSession(delegate, miner, nonce, account) =>
      SubmittedByDelegate(rt, s, clock, delegate, miner, nonce, account)
    case RotateStaleBlock(caller) => Rotated(rt, s, clock, caller)
    case TransferTokens(from, to, amount) => TokensMoved(rt, s, from, to, amount)
    case OpenTokenAccount(key, owner) => TokenAccountOpened(s, key, owner)
    case SetLamports(key, balance) => Committed(s.(lamports := s.lamports[key := balance]))
  }

  /** A rejected command leaves the state as it was. */
  function After(s: State, outcome: Outcome): State {
    match outcome
    case Committed(t) => t
    case Rejected(_) => s
  }

  datatype Call = Call(clock: Clock, command: Command)

  function Next(rt: Runtime, s: State, call: Call): State {
    After(s, Step(rt, s, call.clock, call.command))
  }

  /** Before initialisation: zeroed counters, no records, no events, any ledgers. */
  predicate Fresh(s: State) {
    && !s.initialized
    && s.config.totalBlocksMined == s.config.currentBlockNumber == 0
    && s.config.totalRewardsDistributed == s.config.totalTreasuryFeesDistributed == 0
    && s.miners == map[] && s.sessions == map[] && s.events == []
  }

  function Run(rt: Runtime, s: State, calls: seq<Call>): State {
    if calls == [] then s else Next(rt, Run(rt, s, calls[..|calls| - 1]), calls[|calls| - 1])
  }
}
