/** The on-chain records, the event stream and the commands that change them. */
module Accounts {
  import opened Ints
  import opened Bytes
  import opened Ledger

  const BLOCK_STATUS_OPEN: u8 := 1
  const BLOCK_STATUS_CLOSED: u8 := 2
  const FIXED_SUBMIT_FEE_LAMPORTS: u64 := 10_000_000
  const DEFAULT_KEY: Pubkey := ZERO_32

  datatype ProtocolConfig = ProtocolConfig(
    admin: Pubkey,
    blocMint: Pubkey,
    rewardVault: Pubkey,
    treasuryAuthority: Pubkey,
    treasuryVault: Pubkey,
    maxSupply: u64,
    currentBlockNumber: u64,
    totalBlocksMined: u64,
    totalRewardsDistributed: u64,
    totalTreasuryFeesDistributed: u64,
    initialBlockReward: u64,
    treasuryFeeBps: u16,
    halvingInterval: u64,
    targetBlockTimeSec: u64,
    adjustmentInterval: u64,
    submitFeeLamports: u64,
    blockTtlSec: i64,
    lastAdjustmentTimestamp: Timestamp,
    lastAdjustmentBlock: u64,
    difficultyBits: u8,
    minDifficultyBits: u8,
    maxDifficultyBits: u8,
    tokenDecimals: u8,
    paused: bool,
    difficultyTarget: Bytes32)

  datatype CurrentBlock = CurrentBlock(
    blockNumber: u64,
    challenge: Bytes32,
    difficultyBits: u8,
    status: u8,
    difficultyTarget: Bytes32,
    blockReward: u64,
    openedAt: Timestamp,
    expiresAt: Timestamp,
    winner: Pubkey,
    winningNonce: u64,
    winningHash: Bytes32,
    solvedAt: Timestamp)

  datatype MinerStats = MinerStats(
    miner: Pubkey,
    totalSubmissions: u64,
    validBlocksFound: u64,
    totalRewardsEarned: u64,
    pendingRewards: u64,
    claimedRewards: u64,
    lastSubmissionTime: Timestamp,
    nickname: Bytes32)

  datatype MiningSession = MiningSession(
    miner: Pubkey,
    delegate: Pubkey,
    expiresAt: i64,
    maxSubmissions: u64,
    submissionsUsed: u64,
    createdAt: Timestamp,
    lastUsedAt: Timestamp,
    active: bool)

  datatype Event =
    | BlockOpened(
        blockNumber: u64, challenge: Bytes32, difficultyBits: u8, eraIndex: u8, reward: u64, openedAt: Timestamp)
    | BlockSolved(
        blockNumber: u64, winner: Pubkey, nonce: u64, hash: Bytes32, challenge: Bytes32, difficultyBits: u8,
        difficultyTarget: Bytes32, eraIndex: u8, reward: u64, minerReward: u64, treasuryFee: u64,
        submitFeeLamports: u64, solvedAt: Timestamp)
    | DifficultyAdjusted(
        blockNumber: u64, previousBits: u8, nextBits: u8, observedSeconds: u64, expectedSeconds: u64)
    | BlockStaleRotated(
        staleBlockNumber: u64, nextBlockNumber: u64, caller: Pubkey, previousBits: u8, nextBits: u8,
        nextEraIndex: u8, nextReward: u64, staleForSeconds: u64, rotatedAt: Timestamp)

  /** Everything the instructions read and write. `initialized` says that the config and block
      accounts exist; `tokens` holds the token accounts of the BLOC mint. */
  datatype State = State(
    initialized: bool,
    config: ProtocolConfig,
    block: CurrentBlock,
    miners: map<Pubkey, MinerStats>,
    sessions: map<Pubkey, MiningSession>,
    tokens: Tokens,
    lamports: Lamports,
    events: seq<Event>)

  datatype Clock = Clock(slot: u64, now: Timestamp)

  datatype InitializeArgs = InitializeArgs(
    maxSupply: u64,
    initialBlockReward: u64,
    treasuryFeeBps: u16,
    halvingInterval: u64,
    targetBlockTimeSec: u64,
    adjustmentInterval: u64,
    initialDifficultyBits: u8,
    minDifficultyBits: u8,
    maxDifficultyBits: u8,
    submitFeeLamports: u64,
    blockTtlSec: i64,
    tokenDecimals: u8)

  datatype InitializeAccounts = InitializeAccounts(
    admin: Pubkey,
    blocMint: Pubkey,
    mintDecimals: u8,
    rewardVault: Pubkey,
    treasuryAuthority: Pubkey,
    treasuryVault: Pubkey)

  /** The program's instructions with the accounts a caller may choose, and the three ways in which
      the world outside the program moves balances. */
  datatype Command =
    | InitializeProtocol(accounts: InitializeAccounts, args: InitializeArgs)
    | RegisterMiner(miner: Pubkey, nickname: Bytes32)
    | UpdateNickname(miner: Pubkey, nickname: Bytes32)
    | SubmitSolution(miner: Pubkey, nonce: u64, minerTokenAccount: Pubkey)
    | AuthorizeSession(miner: Pubkey, delegate: Pubkey, expiresAt: i64, maxSubmissions: u64)
    | SubmitWithSession(delegate: Pubkey, miner: Pubkey, nonce: u64, minerTokenAccount: Pubkey)
    | RotateStaleBlock(caller: Pubkey)
    | TransferTokens(from: Pubkey, to: Pubkey, amount: u64)
    | OpenTokenAccount(key: Pubkey, owner: Pubkey)
    | SetLamports(key: Pubkey, balance: nat)

  datatype Error =
    | ProtocolPaused | BlockClosed | BlockExpired | BlockNotStale | InvalidSolution
    | InvalidRewardVault | InvalidRewardVaultFunding | InvalidTreasuryVault | InvalidTreasuryConfiguration
    | InvalidMaxSupply | InvalidInitialReward | InvalidTokenDecimals | InvalidCurrentRewardState
    | InvalidDifficulty | InvalidAdjustmentInterval | InvalidSubmitFee | InvalidHalvingInterval
    | MathOverflow | InsufficientVaultBalance | NoRewardsRemaining | InvalidTreasuryFee
    | InvalidSessionDelegate | InvalidSessionMiner | SessionInactive | SessionExpired
    | InvalidSessionExpiry | StaleBlockRecoveryDisabled
      // raised by the runtime, the account constraints and the two ledgers
    | MissingSignature | AccountNotInitialized | AccountInUse | ConstraintToken
    | InsufficientLamports | InsufficientTokens

  /** An instruction either commits its whole effect or is rejected and changes nothing. */
  datatype Outcome = Committed(state: State) | Rejected(error: Error)
}
