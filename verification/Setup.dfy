/** Initialisation: when it is accepted, and what every record then holds. */
module Setup {
  import opened Ints
  import opened Bytes
  import opened Rewards
  import opened Ledger
  import opened Accounts
  import opened Preimages
  import opened Protocol
  import Invariants
  import Powers
  import Retarget

  /** The two vaults are token accounts of the right owners, the reward vault holds the whole emission. */
  predicate VaultsReady(rt: Runtime, s: State, a: InitializeAccounts) {
    && a.rewardVault in s.tokens && a.treasuryVault in s.tokens && a.rewardVault != a.treasuryVault
    && s.tokens[a.rewardVault] == TokenAccount(rt.vaultAuthority, 20_000_000_000_000_000)
    && s.tokens[a.treasuryVault].owner == a.treasuryAuthority
  }

  /** The arguments that are not free: fee, submit fee, supply, first reward and decimals are fixed, the two
      intervals positive and the bit counts in order. */
  predicate ArgumentsAdmitted(a: InitializeAccounts, args: InitializeArgs) {
    && args.halvingInterval > 0 && args.adjustmentInterval > 0
    && args.treasuryFeeBps == 100 && args.submitFeeLamports == 10_000_000
    && args.minDifficultyBits <= args.initialDifficultyBits && args.initialDifficultyBits <= args.maxDifficultyBits
    && args.maxSupply == 20_000_000_000_000_000 && args.initialBlockReward == 21_000_000_000
    && args.tokenDecimals == a.mintDecimals
  }

  /** An initialisation commits exactly when the admin signs, nothing is initialised yet, vaults and arguments
      are in order and the first block, if it expires at all, expires at a representable time. */
  lemma InitializeCommitsIff(rt: Runtime, s: State, clock: Clock, a: InitializeAccounts, args: InitializeArgs)
    ensures Step(rt, s, clock, InitializeProtocol(a, args)).Committed? <==>
      && CanSign(rt, a.admin) && !s.initialized
      && VaultsReady(rt, s, a) && ArgumentsAdmitted(a, args)
      && (args.blockTtlSec > 0 ==> clock.now + args.blockTtlSec < 0x8000_0000_0000_0000)
  {
    hide RewardForBlock, RewardEraForBlock, TargetBytes, GenesisPreimage, Retarget.TargetValue;
    FirstReward();
  }

  /** A rejection names the first condition, in the program's order, that is violated. */
  lemma InitializeRejectsFirst(rt: Runtime, s: State, clock: Clock, a: InitializeAccounts, args: InitializeArgs)
    requires Step(rt, s, clock, InitializeProtocol(a, args)).Rejected?
    ensures
      var signed := CanSign(rt, a.admin);
      var unused := signed && !s.initialized;
      var rewards := unused && a.rewardVault in s.tokens && s.tokens[a.rewardVault].owner == rt.vaultAuthority;
      var treasury := rewards && a.treasuryVault in s.tokens
        && s.tokens[a.treasuryVault].owner == a.treasuryAuthority;
      var halving := treasury && args.halvingInterval > 0;
      var adjustment := halving && args.adjustmentInterval > 0;
      var fee := adjustment && args.treasuryFeeBps == 100;
      var submitFee := fee && args.submitFeeLamports == 10_000_000;
      var bits := submitFee && args.minDifficultyBits <= args.initialDifficultyBits
        && args.initialDifficultyBits <= args.maxDifficultyBits;
      var supply := bits && args.maxSupply == 20_000_000_000_000_000;
      var reward := supply && args.initialBlockReward == 21_000_000_000;
      var decimals := reward && args.tokenDecimals == a.mintDecimals;
      var funded := decimals && s.tokens[a.rewardVault].amount == 20_000_000_000_000_000;
      var apart := funded && a.rewardVault != a.treasuryVault;
      match Step(rt, s, clock, InitializeProtocol(a, args)).error
      case MissingSignature => !signed
      case AccountInUse => signed && !unused
      case InvalidRewardVault => unused && !rewards
      case InvalidTreasuryVault => rewards && !treasury
      case InvalidHalvingInterval => treasury && !halving
      case InvalidAdjustmentInterval => halving && !adjustment
      case InvalidTreasuryFee => adjustment && !fee
      case InvalidSubmitFee => fee && !submitFee
      case InvalidDifficulty => submitFee && !bits
      case InvalidMaxSupply => bits && !supply
      case InvalidInitialReward => supply && !reward
      case InvalidTokenDecimals => reward && !decimals
      case InvalidRewardVaultFunding => decimals && !funded
      case InvalidTreasuryConfiguration => funded && !apart
      case MathOverflow => apart && args.blockTtlSec > 0 && clock.now + args.blockTtlSec >= 0x8000_0000_0000_0000
      case _ => false
  {
    hide RewardForBlock, RewardEraForBlock, TargetBytes, GenesisPreimage, Retarget.TargetValue;
    FirstReward();
  }

  lemma FirstReward()
    ensures RewardForBlock(0) == 21_000_000_000 && RewardEraForBlock(0) == RewardEra(0, 21_000_000_000)
  {
    ScheduleOfTable(0);
  }

  /** After an initialisation every configured field is the argument or account it is named after, the counters
      are zero, and block 0 is open from now on, at the initial difficulty and the first reward, unsolved. */
  lemma InitializedRecords(rt: Runtime, s: State, t: State, clock: Clock, a: InitializeAccounts, args: InitializeArgs)
    requires Step(rt, s, clock, InitializeProtocol(a, args)) == Committed(t)
    ensures t.initialized && t == s.(initialized := true, config := t.config, block := t.block, events := t.events)
    ensures var c := t.config;
      && c.admin == a.admin && c.blocMint == a.blocMint
      && c.rewardVault == a.rewardVault && c.treasuryVault == a.treasuryVault
      && c.treasuryAuthority == a.treasuryAuthority
      && c.maxSupply == args.maxSupply && c.initialBlockReward == args.initialBlockReward
      && c.treasuryFeeBps == args.treasuryFeeBps && c.submitFeeLamports == args.submitFeeLamports
      && c.halvingInterval == args.halvingInterval && c.adjustmentInterval == args.adjustmentInterval
      && c.targetBlockTimeSec == args.targetBlockTimeSec && c.blockTtlSec == args.blockTtlSec
      && c.minDifficultyBits == args.minDifficultyBits && c.maxDifficultyBits == args.maxDifficultyBits
      && c.difficultyBits == args.initialDifficultyBits && c.tokenDecimals == args.tokenDecimals
      && c.lastAdjustmentTimestamp == clock.now && !c.paused
      && c.currentBlockNumber == c.totalBlocksMined == c.lastAdjustmentBlock == 0
      && c.totalRewardsDistributed == c.totalTreasuryFeesDistributed == 0
    ensures var b := t.block;
      && b.blockNumber == 0 && b.status == 1 && b.blockReward == 21_000_000_000
      && b.challenge == rt.sha(GenesisPreimage(a.admin, a.blocMint, clock.slot, clock.now))
      && b.difficultyBits == args.initialDifficultyBits && b.difficultyTarget == t.config.difficultyTarget
      && b.openedAt == clock.now
      && b.expiresAt == (if args.blockTtlSec > 0 then clock.now + args.blockTtlSec else 0)
      && b.winner == DEFAULT_KEY && b.winningNonce == 0 && b.winningHash == ZERO_32 && b.solvedAt == 0
    ensures t.events == s.events
      + [BlockOpened(0, t.block.challenge, args.initialDifficultyBits, 0, 21_000_000_000, clock.now)]
  {
    hide RewardForBlock, RewardEraForBlock, TargetBytes, GenesisPreimage, Retarget.TargetValue;
    FirstReward();
  }

  /** The opening target is the largest 256-bit number with the asked-for number of leading zeros; 255 asks for
      the target 0, which no hash is below. */
  lemma OpeningTargetValue(rt: Runtime, s: State, t: State, clock: Clock, a: InitializeAccounts, args: InitializeArgs)
    requires Step(rt, s, clock, InitializeProtocol(a, args)) == Committed(t)
    ensures Val(t.block.difficultyTarget)
         == if args.initialDifficultyBits == 255 then 0 else Powers.Pow(2, 256 - args.initialDifficultyBits) - 1
  {
    hide RewardForBlock, RewardEraForBlock, TargetBytes, GenesisPreimage, Retarget.TargetValue, Val;
    Invariants.OpeningTarget(args.initialDifficultyBits, args.minDifficultyBits, args.maxDifficultyBits);
    TargetOf(args.initialDifficultyBits);
  }

  lemma TargetOf(bits: u8)
    ensures Retarget.TargetValue(bits) == if bits == 255 then 0 else Powers.Pow(2, 256 - bits) - 1
  {}
}
