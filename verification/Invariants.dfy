/** What every command keeps: the inductive invariant of the program. */
module Invariants {
  import opened Ints
  import opened Powers
  import opened Bytes
  import opened Wrappers
  import opened Rewards
  import opened Ledger
  import opened Accounts
  import opened Preimages
  import opened Protocol
  import opened EventLog
  import opened Sums
  import Retarget

  /** Before initialisation nothing has happened. */
  predicate Blank(s: State) {
    !s.initialized ==>
      && s.config.totalBlocksMined == s.config.currentBlockNumber == 0
      && s.config.totalRewardsDistributed == s.config.totalTreasuryFeesDistributed == 0
      && s.events == []
  }

  /** The vault belongs to the program alone, the fixed parameters are the fixed ones, and the supply
      of the mint fits in a u64. */
  ghost predicate Custody(rt: Runtime, s: State) {
    && Supply(s.tokens) <= U64_MAX
    && (s.initialized ==>
      && s.config.rewardVault in s.tokens
      && s.tokens[s.config.rewardVault].owner == rt.vaultAuthority
      && s.config.treasuryVault in s.tokens
      && s.config.rewardVault != s.config.treasuryVault
      && !s.config.paused
      && s.config.treasuryFeeBps == 100
      && s.config.submitFeeLamports == FIXED_SUBMIT_FEE_LAMPORTS
      && s.config.maxSupply == TOTAL_PROTOCOL_EMISSIONS
      && s.config.minDifficultyBits <= s.config.maxDifficultyBits)
  }

  function VaultBalance(s: State): nat
    requires s.config.rewardVault in s.tokens
  {
    s.tokens[s.config.rewardVault].amount
  }

  /** The counters are exact prefix sums of the schedule, and the vault covers what is still to be paid. */
  predicate Emission(s: State) {
    && s.config.totalBlocksMined <= REWARDED_BLOCKS
    && s.config.totalRewardsDistributed == Emitted(s.config.totalBlocksMined)
    && 100 * s.config.totalTreasuryFeesDistributed == s.config.totalRewardsDistributed
    && (s.initialized ==>
      && s.config.rewardVault in s.tokens
      && VaultBalance(s) + Emitted(s.config.totalBlocksMined) >= TOTAL_PROTOCOL_EMISSIONS)
  }

  /** Config and block agree, and the target lies between its bounds and shows the stored bits. */
  predicate Agreement(s: State) {
    s.initialized ==>
      && s.block.blockNumber == s.config.currentBlockNumber
      && s.block.difficultyBits == s.config.difficultyBits == Retarget.BitsOf(Val(s.config.difficultyTarget))
      && s.block.difficultyTarget == s.config.difficultyTarget
      && Retarget.InBounds(Val(s.config.difficultyTarget), s.config.minDifficultyBits, s.config.maxDifficultyBits)
      && s.config.minDifficultyBits <= s.config.difficultyBits <= s.config.maxDifficultyBits
  }

  /** The block is open, at the scheduled reward and with the configured expiry, exactly while a reward
      is left; afterwards it is closed and empty. */
  predicate Phase(s: State) {
    s.initialized ==>
      && s.block.blockReward == RewardForBlock(s.config.totalBlocksMined)
      && (s.config.totalBlocksMined < REWARDED_BLOCKS ==>
        && s.block.status == BLOCK_STATUS_OPEN
        && NextExpiry(s.block.openedAt, s.config.blockTtlSec) == Some(s.block.expiresAt))
      && (s.config.totalBlocksMined == REWARDED_BLOCKS ==>
        s.block.status == BLOCK_STATUS_CLOSED && s.block.expiresAt == 0)
  }

  function Found(miners: map<Pubkey, MinerStats>): map<Pubkey, nat> {
    map k | k in miners :: miners[k].validBlocksFound as nat
  }

  function Earned(miners: map<Pubkey, MinerStats>): map<Pubkey, nat> {
    map k | k in miners :: miners[k].totalRewardsEarned as nat
  }

  /** What a miner's record says; no record means nothing won. */
  function Recorded(s: State, k: Pubkey): Winnings {
    if k in s.miners then Winnings(s.miners[k].validBlocksFound, s.miners[k].totalRewardsEarned) else Winnings(0, 0)
  }

  /** Every miner's record says what the events say, and the records add up to the counters. */
  ghost predicate Credits(rt: Runtime, s: State) {
    && (forall k :: k in s.miners ==>
      && CanSign(rt, k)
      && s.miners[k].miner == k
      && s.miners[k].totalSubmissions == s.miners[k].validBlocksFound)
    && (forall k: Pubkey :: WonBy(s.events, k) == Recorded(s, k))
    && Sum(Found(s.miners)) == s.config.totalBlocksMined
    && Sum(Earned(s.miners)) + s.config.totalTreasuryFeesDistributed == s.config.totalRewardsDistributed
  }

  /** A session is active exactly while its quota is not used up. */
  predicate SessionQuotas(s: State) {
    forall k :: k in s.sessions ==>
      && s.sessions[k].miner == k
      && (s.sessions[k].active <==> !QuotaReached(s.sessions[k]))
      && (s.sessions[k].maxSubmissions > 0 ==> s.sessions[k].submissionsUsed <= s.sessions[k].maxSubmissions)
      && s.sessions[k].submissionsUsed <= s.config.totalBlocksMined
  }

  /** The event stream adds up to the counters. */
  predicate Log(s: State) {
    && Total(Solved, s.events) == s.config.totalBlocksMined
    && Total(Solved, s.events) + Total(StaleRotated, s.events) == s.config.currentBlockNumber
    && Total(GrossReward, s.events) == s.config.totalRewardsDistributed
    && Total(TreasuryShare, s.events) == s.config.totalTreasuryFeesDistributed
    && Total(MinerShare, s.events) + Total(TreasuryShare, s.events) == Total(GrossReward, s.events)
    && Total(SubmitFee, s.events) == 10_000_000 * Total(Solved, s.events)
    && OpenedAscend(s.events, s.config.currentBlockNumber)
  }

  ghost predicate Inv(rt: Runtime, s: State) {
    && Blank(s)
    && Custody(rt, s)
    && Emission(s)
    && Agreement(s)
    && Phase(s)
    && Credits(rt, s)
    && SessionQuotas(s)
    && Log(s)
  }

  lemma FreshInv(rt: Runtime, s: State)
    requires Fresh(s) && Supply(s.tokens) <= U64_MAX
    ensures Inv(rt, s)
  {
    SumEmpty(Found(s.miners));
    SumEmpty(Earned(s.miners));
  }

  // ----- what leaves parts of the state alone keeps their invariants

  lemma CreditsFrame(rt: Runtime, s: State, t: State, more: seq<Event>)
    requires Credits(rt, s)
    requires t.miners == s.miners && t.events == s.events + more && forall e :: e in more ==> !e.BlockSolved?
    requires t.config.totalBlocksMined == s.config.totalBlocksMined
    requires t.config.totalRewardsDistributed == s.config.totalRewardsDistributed
    requires t.config.totalTreasuryFeesDistributed == s.config.totalTreasuryFeesDistributed
    ensures Credits(rt, t)
  {
    forall k: Pubkey ensures WonBy(t.events, k) == Recorded(t, k) {
      WonByOthers(s.events, more, k);
      assert Recorded(t, k) == Recorded(s, k);
    }
  }

  lemma SessionsFrame(s: State, t: State)
    requires SessionQuotas(s)
    requires t.sessions == s.sessions && s.config.totalBlocksMined <= t.config.totalBlocksMined
    ensures SessionQuotas(t)
  {}

  // ----- initialisation

  /** What a successful initialisation has checked and written. */
  lemma InitializeEffect(rt: Runtime, s: State, t: State, clock: Clock, a: InitializeAccounts, args: InitializeArgs)
    requires Initialized(rt, s, clock, a, args) == Committed(t)
    ensures !s.initialized && t == s.(initialized := true, config := t.config, block := t.block, events := t.events)
    ensures a.rewardVault in s.tokens
    ensures s.tokens[a.rewardVault] == TokenAccount(rt.vaultAuthority, TOTAL_PROTOCOL_EMISSIONS)
    ensures a.treasuryVault in s.tokens && a.rewardVault != a.treasuryVault
    ensures t.config.rewardVault == a.rewardVault && t.config.treasuryVault == a.treasuryVault
    ensures !t.config.paused && t.config.treasuryFeeBps == 100
    ensures t.config.submitFeeLamports == FIXED_SUBMIT_FEE_LAMPORTS
    ensures t.config.maxSupply == TOTAL_PROTOCOL_EMISSIONS
    ensures t.config.totalBlocksMined == t.config.currentBlockNumber == 0
    ensures t.config.totalRewardsDistributed == t.config.totalTreasuryFeesDistributed == 0
    ensures t.config.minDifficultyBits <= t.config.difficultyBits <= t.config.maxDifficultyBits
    ensures t.config.difficultyTarget == TargetBytes(Retarget.TargetValue(t.config.difficultyBits))
    ensures t.block.blockNumber == 0 && t.block.difficultyBits == t.config.difficultyBits
    ensures t.block.difficultyTarget == t.config.difficultyTarget
    ensures t.block.status == BLOCK_STATUS_OPEN && t.block.blockReward == RewardForBlock(0)
    ensures NextExpiry(t.block.openedAt, t.config.blockTtlSec) == Some(t.block.expiresAt)
    ensures |t.events| == |s.events| + 1 && t.events == s.events + [t.events[|s.events|]]
    ensures t.events[|s.events|].BlockOpened? && t.events[|s.events|].blockNumber == 0
    ensures t.events[|s.events|].challenge == rt.sha(GenesisPreimage(a.admin, a.blocMint, clock.slot, clock.now))
  {}

  lemma InitializePreserves(rt: Runtime, s: State, t: State, clock: Clock, a: InitializeAccounts, args: InitializeArgs)
    requires Inv(rt, s) && Initialized(rt, s, clock, a, args) == Committed(t)
    ensures Inv(rt, t)
  {
    hide Initialized, WonBy, Sum;
    InitializeEffect(rt, s, t, clock, a, args);
    OpeningTarget(t.config.difficultyBits, t.config.minDifficultyBits, t.config.maxDifficultyBits);
    var e := t.events[|s.events|];
    assert t.events == [e];
    CreditsFrame(rt, s, t, [e]);
    SessionsFrame(s, t);
    FirstEvent(t, e);
  }

  lemma FirstEvent(t: State, e: Event)
    requires t.events == [e] && e.BlockOpened? && e.blockNumber == 0
    requires t.config.totalBlocksMined == t.config.currentBlockNumber == 0
    requires t.config.totalRewardsDistributed == t.config.totalTreasuryFeesDistributed == 0
    ensures Log(t)
  {
    assert [e][..0] == [];
  }

  // ----- registration, names, sessions and the ledgers

  /** Writing one record shifts the sums by what it adds to the counters. */
  lemma RecordWritten(s: State, t: State, miner: Pubkey, stats: MinerStats)
    requires t.miners == s.miners[miner := stats]
    ensures Sum(Found(t.miners)) == Sum(Found(s.miners)) - Recorded(s, miner).blocks + stats.validBlocksFound
    ensures Sum(Earned(t.miners)) == Sum(Earned(s.miners)) - Recorded(s, miner).rewards + stats.totalRewardsEarned
  {
    SumUpdate(Found(s.miners), miner, stats.validBlocksFound);
    SumUpdate(Earned(s.miners), miner, stats.totalRewardsEarned);
    assert Found(t.miners) == Found(s.miners)[miner := stats.validBlocksFound];
    assert Earned(t.miners) == Earned(s.miners)[miner := stats.totalRewardsEarned];
  }

  /** Writing a record that keeps the counters keeps the credits. */
  lemma RelabelPreserves(rt: Runtime, s: State, t: State, miner: Pubkey, stats: MinerStats)
    requires Inv(rt, s) && t == s.(miners := s.miners[miner := stats])
    requires CanSign(rt, miner) && stats.miner == miner && stats.totalSubmissions == stats.validBlocksFound
    requires Winnings(stats.validBlocksFound, stats.totalRewardsEarned) == Recorded(s, miner)
    ensures Inv(rt, t)
  {
    hide WonBy, Sum, Total, Found, Earned;
    RecordWritten(s, t, miner, stats);
    forall k: Pubkey ensures WonBy(t.events, k) == Recorded(t, k) {
      assert Recorded(t, k) == Recorded(s, k);
    }
    assert Credits(rt, t);
  }

  lemma RegisterPreserves(rt: Runtime, s: State, t: State, miner: Pubkey, nickname: Bytes32)
    requires Inv(rt, s) && Registered(rt, s, miner, nickname) == Committed(t)
    ensures Inv(rt, t)
  {
    hide WonBy, Sum, Total;
    RelabelPreserves(rt, s, t, miner, t.miners[miner]);
  }

  lemma RenamePreserves(rt: Runtime, s: State, t: State, miner: Pubkey, nickname: Bytes32)
    requires Inv(rt, s) && Renamed(rt, s, miner, nickname) == Committed(t)
    ensures Inv(rt, t)
  {
    hide WonBy, Sum, Total;
    RelabelPreserves(rt, s, t, miner, t.miners[miner]);
  }

  lemma AuthorizePreserves(rt: Runtime, s: State, t: State, clock: Clock, miner: Pubkey, delegate: Pubkey,
                           expiresAt: i64, max: u64)
    requires Inv(rt, s) && Authorized(rt, s, clock, miner, delegate, expiresAt, max) == Committed(t)
    ensures Inv(rt, t)
  {
    hide WonBy, Sum, Total;
    assert SessionQuotas(t);
    assert Credits(rt, t) by {
      forall k: Pubkey ensures WonBy(t.events, k) == Recorded(t, k) { assert Recorded(t, k) == Recorded(s, k); }
    }
  }

  /** Outside transfers keep the invariant as long as they respect custody and supply and leave the
      vault at least as full. */
  lemma LedgersPreserve(rt: Runtime, s: State, t: State)
    requires Inv(rt, s) && t == s.(tokens := t.tokens, lamports := t.lamports)
    requires Supply(t.tokens) == Supply(s.tokens)
    requires forall k :: k in s.tokens ==> k in t.tokens && t.tokens[k].owner == s.tokens[k].owner
    requires s.initialized ==> t.tokens[s.config.rewardVault].amount >= VaultBalance(s)
    ensures Inv(rt, t)
  {
    hide WonBy, Sum, Total, Supply;
    assert Credits(rt, t) by {
      forall k: Pubkey ensures WonBy(t.events, k) == Recorded(t, k) { assert Recorded(t, k) == Recorded(s, k); }
    }
  }

  lemma TokensMovedPreserves(rt: Runtime, s: State, t: State, from: Pubkey, to: Pubkey, amount: u64)
    requires Inv(rt, s) && TokensMoved(rt, s, from, to, amount) == Committed(t)
    ensures Inv(rt, t)
  {
    hide WonBy, Sum, Total;
    TransferMoves(s.tokens, from, to, amount);
    LedgersPreserve(rt, s, t);
  }

  lemma TokenAccountOpenedPreserves(rt: Runtime, s: State, t: State, key: Pubkey, owner: Pubkey)
    requires Inv(rt, s) && TokenAccountOpened(s, key, owner) == Committed(t)
    ensures Inv(rt, t)
  {
    hide WonBy, Sum, Total;
    AmountsUpdate(s.tokens, key, TokenAccount(owner, 0));
    SumUpdate(Amounts(s.tokens), key, 0);
    LedgersPreserve(rt, s, t);
  }

  /** The target of an admissible bit count lies between the bounds and shows that bit count. */
  lemma OpeningTarget(bits: u8, minBits: u8, maxBits: u8)
    requires minBits <= bits <= maxBits
    ensures var v := Val(TargetBytes(Retarget.TargetValue(bits)));
      v == Retarget.TargetValue(bits) && Retarget.BitsOf(v) == bits && Retarget.InBounds(v, minBits, maxBits)
  {
    Retarget.TargetAntitone(minBits, bits);
    Retarget.TargetAntitone(bits, maxBits);
    Retarget.BitsRoundTrip(bits);
    TargetEncodes(Retarget.TargetValue(bits));
  }

  lemma TargetEncodes(v: nat)
    requires v < Pow(2, 256)
    ensures Val(TargetBytes(v)) == v
  {
    Pow256IsPow2(32);
    ValEncode(v, 32);
  }
}
