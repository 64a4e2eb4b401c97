/** The program as it runs: the instructions mutate the account records field by field, and the runtime
    rolls a failed instruction back. Every instruction is proved against its outcome in Protocol. */
module Program {
  import opened Ints
  import opened Bytes
  import opened Wrappers
  import opened Rewards
  import opened Ledger
  import opened Accounts
  import opened Preimages
  import opened Protocol
  import Difficulty
  import Retarget

  /** What the caller of an instruction sees of its outcome. */
  function Report(outcome: Outcome): Option<Error> {
    match outcome
    case Committed(_) => None
    case Rejected(error) => Some(error)
  }

  lemma FeeProductFits(reward: u64, bps: u16)
    ensures reward * bps <= U128_MAX
  {
    Powers.MulMonotone(reward, U64_MAX, bps);
    Powers.MulMonotone(bps, U16_MAX, U64_MAX);
  }

  /** The treasury's share in checked u128 arithmetic, truncated to u64; None when the source reports an
      overflow. The product itself never overflows. */
  method ComputeTreasuryFee(reward: u64, bps: u16) returns (share: Option<u64>)
    ensures share == TreasuryFee(reward, bps)
  {
    FeeProductFits(reward, bps);
    var product := Difficulty.CheckedMul128(reward, bps);
    if product.None? { return None; }
    var fee := product.value / 10_000 % TWO_64;
    share := if fee <= reward then Some(fee) else None;
  }

  method EncodedTarget(bits: u8) returns (target: Bytes32)
    ensures target == TargetBytes(Retarget.TargetValue(bits))
  {
    target := Difficulty.TargetFromDifficultyBits(bits);
    EncodeVal(target);
  }

  class Blockmine {
    const rt: Runtime
    var initialized: bool
    var config: ProtocolConfig
    var block: CurrentBlock
    var miners: map<Pubkey, MinerStats>
    var sessions: map<Pubkey, MiningSession>
    var tokens: Tokens
    var lamports: Lamports
    var events: seq<Event>

    function View(): State
      reads this
    {
      State(initialized, config, block, miners, sessions, tokens, lamports, events)
    }

    /** The deployed program before its first instruction; unallocated records read as zeros. */
    constructor (rt: Runtime, zeroConfig: ProtocolConfig, zeroBlock: CurrentBlock, tokens: Tokens, lamports: Lamports)
      requires zeroConfig.totalBlocksMined == zeroConfig.currentBlockNumber == 0
      requires zeroConfig.totalRewardsDistributed == zeroConfig.totalTreasuryFeesDistributed == 0
      ensures this.rt == rt && Fresh(View()) && View().tokens == tokens && View().lamports == lamports
    {
      this.rt, this.tokens, this.lamports := rt, tokens, lamports;
      initialized, config, block := false, zeroConfig, zeroBlock;
      miners, sessions, events := map[], map[], [];
    }

    /** The runtime discards every write of a failed instruction. */
    method Restore(s: State)
      modifies this
      ensures View() == s
    {
      initialized, config, block := s.initialized, s.config, s.block;
      miners, sessions, tokens, lamports := s.miners, s.sessions, s.tokens, s.lamports;
      events := s.events;
    }

    // ----- initialize_protocol

    method InitializeProtocol(clock: Clock, accounts: InitializeAccounts, args: InitializeArgs)
      returns (error: Option<Error>)
      modifies this
      ensures View() == Next(rt, old(View()), Call(clock, Command.InitializeProtocol(accounts, args)))
      ensures error == Report(Step(rt, old(View()), clock, Command.InitializeProtocol(accounts, args)))
    {
      if !CanSign(rt, accounts.admin) { return Some(MissingSignature); }
      if initialized { return Some(AccountInUse); }
      if accounts.rewardVault !in tokens || tokens[accounts.rewardVault].owner != rt.vaultAuthority {
        return Some(InvalidRewardVault);
      }
      if accounts.treasuryVault !in tokens || tokens[accounts.treasuryVault].owner != accounts.treasuryAuthority {
        return Some(InvalidTreasuryVault);
      }
      var snapshot := View();
      error := Initialize(clock, accounts, args);
      if error.Some? { Restore(snapshot); }
    }

    /** The handler behind its account constraints; on failure the writes made so far are left behind. */
    method Initialize(clock: Clock, accounts: InitializeAccounts, args: InitializeArgs) returns (error: Option<Error>)
      requires CanSign(rt, accounts.admin) && !initialized
      requires accounts.rewardVault in tokens && tokens[accounts.rewardVault].owner == rt.vaultAuthority
      requires accounts.treasuryVault in tokens && tokens[accounts.treasuryVault].owner == accounts.treasuryAuthority
      modifies `initialized, `config, `block, `events
      ensures error == Report(Initialized(rt, old(View()), clock, accounts, args))
      ensures error.None? ==> View() == After(old(View()), Initialized(rt, old(View()), clock, accounts, args))
    {
      if args.halvingInterval == 0 { return Some(InvalidHalvingInterval); }
      if args.adjustmentInterval == 0 { return Some(InvalidAdjustmentInterval); }
      if args.treasuryFeeBps != 100 { return Some(InvalidTreasuryFee); }
      if args.submitFeeLamports != FIXED_SUBMIT_FEE_LAMPORTS { return Some(InvalidSubmitFee); }
      if !(args.minDifficultyBits <= args.initialDifficultyBits <= args.maxDifficultyBits) {
        return Some(InvalidDifficulty);
      }
      hide RewardEraForBlock, Retarget.TargetValue, Val, GenesisPreimage, TargetBytes, CanSign;
      var target := EncodedTarget(args.initialDifficultyBits);
      var era := RewardEraForBlock(0);
      if args.maxSupply != TOTAL_PROTOCOL_EMISSIONS { return Some(InvalidMaxSupply); }
      if args.initialBlockReward != era.reward { return Some(InvalidInitialReward); }
      if accounts.mintDecimals != args.tokenDecimals { return Some(InvalidTokenDecimals); }
      if tokens[accounts.rewardVault].amount != TOTAL_PROTOCOL_EMISSIONS { return Some(InvalidRewardVaultFunding); }
      if accounts.rewardVault == accounts.treasuryVault { return Some(InvalidTreasuryConfiguration); }
      var challenge := rt.sha(GenesisPreimage(accounts.admin, accounts.blocMint, clock.slot, clock.now));

      initialized := true;
      config := config.(
        admin := accounts.admin, blocMint := accounts.blocMint, rewardVault := accounts.rewardVault,
        treasuryAuthority := accounts.treasuryAuthority, treasuryVault := accounts.treasuryVault,
        maxSupply := TOTAL_PROTOCOL_EMISSIONS, currentBlockNumber := 0, totalBlocksMined := 0,
        totalRewardsDistributed := 0, totalTreasuryFeesDistributed := 0, initialBlockReward := era.reward,
        treasuryFeeBps := args.treasuryFeeBps, halvingInterval := args.halvingInterval,
        targetBlockTimeSec := args.targetBlockTimeSec, adjustmentInterval := args.adjustmentInterval,
        submitFeeLamports := args.submitFeeLamports, blockTtlSec := args.blockTtlSec,
        lastAdjustmentTimestamp := clock.now, lastAdjustmentBlock := 0,
        difficultyBits := args.initialDifficultyBits, minDifficultyBits := args.minDifficultyBits,
        maxDifficultyBits := args.maxDifficultyBits, tokenDecimals := accounts.mintDecimals, paused := false,
        difficultyTarget := target);

      block := block.(
        blockNumber := 0, challenge := challenge, difficultyBits := args.initialDifficultyBits,
        status := BLOCK_STATUS_OPEN, difficultyTarget := target, blockReward := era.reward,
        openedAt := clock.now);
      if args.blockTtlSec > 0 {
        if !FitsI64(clock.now + args.blockTtlSec) { return Some(MathOverflow); }
        block := block.(expiresAt := clock.now + args.blockTtlSec);
      } else {
        block := block.(expiresAt := 0);
      }
      block := block.(winner := DEFAULT_KEY, winningNonce := 0, winningHash := ZERO_32, solvedAt := 0);
      events := events + [BlockOpened(block.blockNumber, block.challenge, block.difficultyBits, era.index,
                                      block.blockReward, block.openedAt)];
      error := None;
    }

    // ----- register_miner and update_nickname

    method RegisterMiner(clock: Clock, miner: Pubkey, nickname: Bytes32) returns (error: Option<Error>)
      modifies `miners
      ensures View() == Next(rt, old(View()), Call(clock, Command.RegisterMiner(miner, nickname)))
      ensures error == Report(Step(rt, old(View()), clock, Command.RegisterMiner(miner, nickname)))
    {
      if !CanSign(rt, miner) { return Some(MissingSignature); }
      if miner !in miners {
        // init_if_needed allocates a zeroed record
        miners := miners[miner := MinerStats(DEFAULT_KEY, 0, 0, 0, 0, 0, 0, ZERO_32)];
      }
      var stats := miners[miner];
      if stats.miner == DEFAULT_KEY {
        stats := stats.(
          miner := miner, totalSubmissions := 0, validBlocksFound := 0, totalRewardsEarned := 0,
          pendingRewards := 0, claimedRewards := 0, lastSubmissionTime := 0, nickname := nickname);
      } else if nickname != ZERO_32 {
        stats := stats.(nickname := nickname);
      }
      miners := miners[miner := stats];
      error := None;
    }

    method UpdateNickname(clock: Clock, miner: Pubkey, nickname: Bytes32) returns (error: Option<Error>)
      modifies `miners
      ensures View() == Next(rt, old(View()), Call(clock, Command.UpdateNickname(miner, nickname)))
      ensures error == Report(Step(rt, old(View()), clock, Command.UpdateNickname(miner, nickname)))
    {
      if !CanSign(rt, miner) { return Some(MissingSignature); }
      if miner !in miners { return Some(AccountNotInitialized); }
      miners := miners[miner := miners[miner].(nickname := nickname)];
      error := None;
    }

    // ----- submit_solution

    /** The checks of process_submission; the byte comparison decides what Protocol states on numbers. */
    method CheckSubmission(sub: Submission) returns (checked: Result<Bytes32, Error>)
      requires config.rewardVault in tokens
      ensures checked == match SubmissionError(rt, View(), sub)
                         case Some(error) => Failure(error)
                         case None => Success(ProofHash(rt, View(), sub))
    {
      if config.paused { return Failure(ProtocolPaused); }
      if block.status != BLOCK_STATUS_OPEN { return Failure(BlockClosed); }
      if block.expiresAt > 0 && sub.clock.now > block.expiresAt { return Failure(BlockExpired); }
      if block.blockReward != RewardEraForBlock(config.totalBlocksMined).reward {
        return Failure(InvalidCurrentRewardState);
      }
      var hash := rt.sha(ProofPreimage(block.challenge, sub.miner, sub.nonce));
      LexIsNumeric(hash, block.difficultyTarget);
      if !LexLess(hash, block.difficultyTarget) { return Failure(InvalidSolution); }
      if block.blockReward == 0 { return Failure(NoRewardsRemaining); }
      if tokens[config.rewardVault].amount < block.blockReward { return Failure(InsufficientVaultBalance); }
      checked := Success(hash);
    }

    /** The submit fee, then the miner's share, then the treasury's. */
    method PayShares(sub: Submission) returns (paid: Result<u64, Error>)
      requires config.rewardVault in tokens && config.treasuryVault in tokens && sub.destination in tokens
      modifies `tokens, `lamports
      ensures var s, fee := old(View()), TreasuryFee(old(block.blockReward), old(config.treasuryFeeBps));
        match fee
        case None => paid == Failure(if SubmitFeePaid(s, sub.payer).None? then InsufficientLamports else MathOverflow)
        case Some(fee) =>
          match Paid(s, sub, fee)
          case Failure(error) => paid == Failure(error)
          case Success(payment) => paid == Success(fee) && tokens == payment.tokens && lamports == payment.lamports
    {
      hide TreasuryFee;
      if config.submitFeeLamports > 0 {
        var moved := Pay(lamports, sub.payer, config.treasuryAuthority, config.submitFeeLamports);
        if moved.None? { return Failure(InsufficientLamports); }
        lamports := moved.value;
      }
      var reward := block.blockReward;
      var share := ComputeTreasuryFee(reward, config.treasuryFeeBps);
      if share.None? { return Failure(MathOverflow); }
      var treasuryFee := share.value;
      var rewarded := Transfer(tokens, config.rewardVault, sub.destination, reward - treasuryFee);
      if rewarded.None? { return Failure(InsufficientTokens); }
      tokens := rewarded.value;
      if treasuryFee > 0 {
        var shared := Transfer(tokens, config.rewardVault, config.treasuryVault, treasuryFee);
        if shared.None? { return Failure(InsufficientTokens); }
        tokens := shared.value;
      }
      paid := Success(treasuryFee);
    }

    method CreditMiner(miner: Pubkey, minerReward: u64, now: Timestamp) returns (error: Option<Error>)
      requires miner in miners
      modifies `miners
      ensures match Credited(old(miners)[miner], minerReward, now)
              case None => error == Some(MathOverflow)
              case Some(stats) => error == None && miners == old(miners)[miner := stats]
    {
      var stats := miners[miner];
      if !FitsU64(stats.totalSubmissions + 1) { return Some(MathOverflow); }
      stats := stats.(totalSubmissions := stats.totalSubmissions + 1);
      if !FitsU64(stats.validBlocksFound + 1) { return Some(MathOverflow); }
      stats := stats.(validBlocksFound := stats.validBlocksFound + 1);
      if !FitsU64(stats.totalRewardsEarned + minerReward) { return Some(MathOverflow); }
      stats := stats.(totalRewardsEarned := stats.totalRewardsEarned + minerReward, lastSubmissionTime := now);
      miners := miners[miner := stats];
      error := None;
    }

    method CountBlock(reward: u64, treasuryFee: u64) returns (error: Option<Error>)
      modifies `config
      ensures match Counted(old(config), reward, treasuryFee)
              case None => error == Some(MathOverflow)
              case Some(counted) => error == None && config == counted
      ensures config.difficultyBits == old(config.difficultyBits)
      ensures config.difficultyTarget == old(config.difficultyTarget)
    {
      if !FitsU64(config.totalBlocksMined + 1) { return Some(MathOverflow); }
      config := config.(totalBlocksMined := config.totalBlocksMined + 1);
      if !FitsU64(config.totalRewardsDistributed + reward) { return Some(MathOverflow); }
      config := config.(totalRewardsDistributed := config.totalRewardsDistributed + reward);
      if !FitsU64(config.totalTreasuryFeesDistributed + treasuryFee) { return Some(MathOverflow); }
      config := config.(totalTreasuryFeesDistributed := config.totalTreasuryFeesDistributed + treasuryFee);
      error := None;
    }

    /** The per-block retarget on the stored byte target. */
    method Adjust(next: u64, now: Timestamp) returns (changed: bool)
      requires FitsU64(block.blockNumber + 1) && next == block.blockNumber + 1
      modifies `config, `events
      ensures config.(currentBlockNumber := next) == Advanced(old(config), block, now)
      ensures config.currentBlockNumber == old(config.currentBlockNumber)
      ensures events == old(events)
              + (if config.difficultyTarget == old(config.difficultyTarget) then []
                 else [Adjusting(old(config), config.(currentBlockNumber := next),
                                 ObservedSeconds(now, block.openedAt))])
    {
      hide Retarget.NextTarget, Retarget.BitsOf, Val, Encode;
      var observed := Max(now - block.openedAt, 1);
      var expected: u64 := Max(config.targetBlockTimeSec, 1);
      var previousBits := config.difficultyBits;
      var adjustment := Difficulty.CalculateNextDifficulty(
        config.difficultyTarget, observed, expected, config.minDifficultyBits, config.maxDifficultyBits);
      EncodeVal(adjustment.target);
      config := config.(
        difficultyBits := adjustment.difficultyBits, difficultyTarget := adjustment.target,
        lastAdjustmentTimestamp := now, lastAdjustmentBlock := next);
      changed := adjustment.changed;
      if changed {
        events := events + [DifficultyAdjusted(next, previousBits, adjustment.difficultyBits, observed, expected)];
      }
    }

    /** Opens the next block, or closes the last one for good. */
    method OpenNext(era: RewardEra, challenge: Bytes32, next: u64, now: Timestamp) returns (error: Option<Error>)
      modifies `config, `block, `events
      ensures var advanced := old(config).(currentBlockNumber := next);
        match SuccessorExpiry(advanced, era.reward, now)
        case None => error == Some(MathOverflow)
        case Some(expiresAt) =>
          && error == None && config == advanced
          && block == SuccessorBlock(advanced, era.reward, challenge, now, expiresAt)
          && events == old(events) + Opening(block, era)
    {
      config := config.(currentBlockNumber := next);
      block := block.(
        blockNumber := next, difficultyBits := config.difficultyBits,
        difficultyTarget := config.difficultyTarget, winner := DEFAULT_KEY, winningNonce := 0,
        winningHash := ZERO_32, solvedAt := 0);
      if era.reward > 0 {
        block := block.(
          challenge := challenge, status := BLOCK_STATUS_OPEN, blockReward := era.reward, openedAt := now);
        var expiresAt := NextExpiry(now, config.blockTtlSec);
        if expiresAt.None? { return Some(MathOverflow); }
        block := block.(expiresAt := expiresAt.value);
        events := events + [BlockOpened(block.blockNumber, block.challenge, block.difficultyBits, era.index,
                                        block.blockReward, block.openedAt)];
      } else {
        block := block.(
          challenge := ZERO_32, status := BLOCK_STATUS_CLOSED, blockReward := 0, openedAt := now, expiresAt := 0);
      }
      error := None;
    }

    /** The second half of process_submission: retarget, derive the next challenge, open the next block. */
    method Succeed(sub: Submission, hash: Bytes32, challenge: Bytes32, next: u64) returns (error: Option<Error>)
      requires FitsU64(block.blockNumber + 1) && next == block.blockNumber + 1
      modifies `config, `block, `events
      ensures var now := sub.clock.now;
        var advanced := Advanced(old(config), old(block), now);
        var era := RewardEraForBlock(advanced.totalBlocksMined);
        var nextChallenge := rt.sha(NextPreimage(hash, challenge, sub.miner, sub.nonce, next, sub.clock.slot, now));
        match SuccessorExpiry(advanced, era.reward, now)
        case None => error == Some(MathOverflow)
        case Some(expiresAt) =>
          && error == None && config == advanced && config.currentBlockNumber == next
          && block == SuccessorBlock(advanced, era.reward, nextChallenge, now, expiresAt)
          && events == old(events)
             + (if advanced.difficultyTarget == old(config.difficultyTarget) then []
                else [Adjusting(old(config), advanced, ObservedSeconds(now, old(block.openedAt)))])
             + Opening(block, era)
    {
      hide Reconfigured, RetargetedValue, ObservedSeconds, RewardEraForBlock, SuccessorBlock, Opening,
        SuccessorExpiry, NextPreimage, Adjusting;
      var now := sub.clock.now;
      var changed := Adjust(next, now);
      var nextEra := RewardEraForBlock(config.totalBlocksMined);
      var nextChallenge := rt.sha(NextPreimage(hash, challenge, sub.miner, sub.nonce, next, sub.clock.slot, now));
      error := OpenNext(nextEra, nextChallenge, next, now);
    }

    /** Everything after the checks. */
    method Settle(sub: Submission, hash: Bytes32) returns (error: Option<Error>)
      requires SubmissionAccountsError(View(), sub).None? && hash == ProofHash(rt, View(), sub)
      modifies `config, `block, `miners, `tokens, `lamports, `events
      ensures match Settled(rt, old(View()), sub)
              case Failure(e) => error == Some(e)
              case Success(x) => error == None && View() == SettledInto(rt, old(View()), sub, x)
    {
      hide Credited, Counted, Paid, TreasuryFee, ProofHash, Reconfigured, RetargetedValue, ObservedSeconds,
        RewardEraForBlock, SuccessorBlock, Opening, SuccessorExpiry, SubmitFeePaid, NextPreimage;
      assert sub.miner in miners && sub.destination in tokens;
      assert config.rewardVault in tokens && config.treasuryVault in tokens;
      hide SubmissionAccountsError;
      var now := sub.clock.now;
      var blockNumber, challenge, reward := block.blockNumber, block.challenge, block.blockReward;
      var target, bits := block.difficultyTarget, block.difficultyBits;
      var era := RewardEraForBlock(config.totalBlocksMined);

      var paid := PayShares(sub);
      if paid.Failure? { return Some(paid.error); }
      var treasuryFee := paid.value;
      error := CreditMiner(sub.miner, reward - treasuryFee, now);
      if error.Some? { return; }

      block := block.(
        status := BLOCK_STATUS_CLOSED, winner := sub.miner, winningNonce := sub.nonce, winningHash := hash,
        solvedAt := now);
      events := events + [BlockSolved(blockNumber, sub.miner, sub.nonce, hash, challenge, bits, target, era.index,
                                      reward, reward - treasuryFee, treasuryFee, config.submitFeeLamports, now)];
      assert events == old(events) + [Solving(rt, old(View()), sub, treasuryFee)];
      hide Solving;

      error := CountBlock(reward, treasuryFee);
      if error.Some? { return; }
      if blockNumber == U64_MAX { return Some(MathOverflow); }
      error := Succeed(sub, hash, challenge, blockNumber + 1);
    }

    /** process_submission: on failure the writes made so far are left behind for the runtime to undo. */
    method ProcessSubmission(sub: Submission) returns (error: Option<Error>)
      requires SubmissionAccountsError(View(), sub).None?
      modifies `config, `block, `miners, `tokens, `lamports, `events
      ensures error == Report(Processed(rt, old(View()), sub))
      ensures error.None? ==> View() == After(old(View()), Processed(rt, old(View()), sub))
    {
      hide Settled, SettledInto, SubmissionError, ProofHash;
      var checked := CheckSubmission(sub);
      if checked.Failure? { return Some(checked.error); }
      error := Settle(sub, checked.value);
    }

    method SubmitSolution(clock: Clock, miner: Pubkey, nonce: u64, account: Pubkey) returns (error: Option<Error>)
      modifies this
      ensures View() == Next(rt, old(View()), Call(clock, Command.SubmitSolution(miner, nonce, account)))
      ensures error == Report(Step(rt, old(View()), clock, Command.SubmitSolution(miner, nonce, account)))
    {
      hide Settled, SettledInto, SubmissionError;
      if !CanSign(rt, miner) { return Some(MissingSignature); }
      var sub := Submission(clock, miner, nonce, account, miner);
      error := SubmissionAccountsError(View(), sub);
      if error.Some? { return; }
      var snapshot := View();
      error := ProcessSubmission(sub);
      if error.Some? { Restore(snapshot); }
    }

    // ----- delegated sessions

    method AuthorizeSession(clock: Clock, miner: Pubkey, delegate: Pubkey, expiresAt: i64, maxSubmissions: u64)
      returns (error: Option<Error>)
      modifies `sessions
      ensures var command := Command.AuthorizeSession(miner, delegate, expiresAt, maxSubmissions);
        && View() == Next(rt, old(View()), Call(clock, command))
        && error == Report(Step(rt, old(View()), clock, command))
    {
      if !CanSign(rt, miner) { return Some(MissingSignature); }
      if delegate == DEFAULT_KEY { return Some(InvalidSessionDelegate); }
      if !(expiresAt == 0 || expiresAt > clock.now) { return Some(InvalidSessionExpiry); }
      sessions := sessions[miner := MiningSession(miner, delegate, expiresAt, maxSubmissions, 0, clock.now, 0, true)];
      error := None;
    }

    method SubmitWithSession(clock: Clock, delegate: Pubkey, miner: Pubkey, nonce: u64, account: Pubkey)
      returns (error: Option<Error>)
      modifies this
      ensures View() == Next(rt, old(View()), Call(clock, Command.SubmitWithSession(delegate, miner, nonce, account)))
      ensures error == Report(Step(rt, old(View()), clock, Command.SubmitWithSession(delegate, miner, nonce, account)))
    {
      hide Settled, SettledInto, SubmissionError;
      if !CanSign(rt, delegate) { return Some(MissingSignature); }
      var sub := Submission(clock, miner, nonce, account, delegate);
      error := SessionError(View(), delegate, miner);
      if error.Some? { return; }
      error := SubmissionAccountsError(View(), sub);
      if error.Some? { return; }
      var snapshot := View();
      error := UseSession(sub);
      if error.Some? { Restore(snapshot); }
    }

    /** The handler: session checks, settlement, session use. */
    method UseSession(sub: Submission) returns (error: Option<Error>)
      requires CanSign(rt, sub.payer) && SessionError(View(), sub.payer, sub.miner).None?
      requires SubmissionAccountsError(View(), sub).None?
      modifies this
      ensures
        var outcome :=
          SubmittedByDelegate(rt, old(View()), sub.clock, sub.payer, sub.miner, sub.nonce, sub.destination);
        && error == Report(outcome)
        && (error.None? ==> View() == After(old(View()), outcome))
    {
      hide Settled, SettledInto, SubmissionError;
      var now, session := sub.clock.now, sessions[sub.miner];
      assert sub == Submission(sub.clock, sub.miner, sub.nonce, sub.destination, sub.payer);
      if !session.active { return Some(SessionInactive); }
      if session.expiresAt > 0 && now > session.expiresAt { return Some(SessionExpired); }
      if session.maxSubmissions > 0 && session.submissionsUsed >= session.maxSubmissions {
        return Some(SessionInactive);
      }
      error := ProcessSubmission(sub);
      if error.Some? { return; }
      if !FitsU64(session.submissionsUsed + 1) { return Some(MathOverflow); }
      session := session.(submissionsUsed := session.submissionsUsed + 1);
      session := session.(lastUsedAt := now);
      if session.maxSubmissions > 0 && session.submissionsUsed >= session.maxSubmissions {
        session := session.(active := false);
      }
      sessions := sessions[sub.miner := session];
    }

    // ----- rotate_stale_block

    method RotateStaleBlock(clock: Clock, caller: Pubkey) returns (error: Option<Error>)
      modifies this
      ensures View() == Next(rt, old(View()), Call(clock, Command.RotateStaleBlock(caller)))
      ensures error == Report(Step(rt, old(View()), clock, Command.RotateStaleBlock(caller)))
    {
      if !CanSign(rt, caller) { return Some(MissingSignature); }
      if !initialized { return Some(AccountNotInitialized); }
      var snapshot := View();
      error := Rotate(clock, caller);
      if error.Some? { Restore(snapshot); }
    }

    /** The handler; on failure the writes made so far are left behind. */
    method Rotate(clock: Clock, caller: Pubkey) returns (error: Option<Error>)
      requires CanSign(rt, caller) && initialized
      modifies `config, `block, `events
      ensures error == Report(Rotated(rt, old(View()), clock, caller))
      ensures error.None? ==> View() == After(old(View()), Rotated(rt, old(View()), clock, caller))
    {
      hide RewardEraForBlock, RotatePreimage, Retarget.TargetValue, Retarget.BitsOf, Encode, Val;
      var now := clock.now;
      if config.paused { return Some(ProtocolPaused); }
      if block.status != BLOCK_STATUS_OPEN { return Some(BlockClosed); }
      if config.blockTtlSec <= 0 { return Some(StaleBlockRecoveryDisabled); }
      if block.expiresAt <= 0 { return Some(StaleBlockRecoveryDisabled); }
      if now <= block.expiresAt { return Some(BlockNotStale); }
      var era := RewardEraForBlock(config.totalBlocksMined);
      if block.blockReward != era.reward { return Some(InvalidCurrentRewardState); }
      var stale := block.blockNumber;
      if stale == U64_MAX { return Some(MathOverflow); }
      var next := stale + 1;
      var previousBits, nextBits := config.difficultyBits, config.minDifficultyBits;
      var nextTarget := EncodedTarget(nextBits);
      if era.reward == 0 { return Some(NoRewardsRemaining); }
      var staleFor := Max(now - block.openedAt, 0);
      var challenge := rt.sha(RotatePreimage(block.challenge, caller, stale, next, clock.slot, now));

      config := config.(
        currentBlockNumber := next, difficultyBits := nextBits, difficultyTarget := nextTarget,
        lastAdjustmentTimestamp := now, lastAdjustmentBlock := next);

      block := block.(
        blockNumber := next, challenge := challenge, difficultyBits := nextBits, status := BLOCK_STATUS_OPEN,
        difficultyTarget := nextTarget, blockReward := era.reward, openedAt := now);
      var expiresAt := NextExpiry(now, config.blockTtlSec);
      if expiresAt.None? { return Some(MathOverflow); }
      block := block.(
        expiresAt := expiresAt.value, winner := DEFAULT_KEY, winningNonce := 0, winningHash := ZERO_32,
        solvedAt := 0);

      events := events + [DifficultyAdjusted(next, previousBits, nextBits, staleFor,
                                             Max(config.targetBlockTimeSec, 1))];
      events := events + [BlockStaleRotated(stale, next, caller, previousBits, nextBits, era.index, era.reward,
                                            staleFor, now)];
      events := events + [BlockOpened(block.blockNumber, block.challenge, block.difficultyBits, era.index,
                                      block.blockReward, block.openedAt)];
      error := None;
    }
  }
}
