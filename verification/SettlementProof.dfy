/** A settlement keeps the invariant: the payments, counters, retarget and the next block. */
module SettlementProof {
  import opened Ints
  import opened Bytes
  import opened Wrappers
  import opened Rewards
  import opened Ledger
  import opened Accounts
  import opened Protocol
  import opened EventLog
  import opened Sums
  import opened Invariants
  import Retarget

  /** What a committed submission has checked and computed, apart from the invariant. */
  ghost predicate Settles(rt: Runtime, s: State, t: State, sub: Submission, x: Settlement) {
    && SubmissionAccountsError(s, sub).None?
    && SubmissionError(rt, s, sub).None?
    && Settled(rt, s, sub) == Success(x)
    && t == SettledInto(rt, s, sub, x)
  }

  lemma ProcessedSettles(rt: Runtime, s: State, t: State, sub: Submission) returns (x: Settlement)
    requires Processed(rt, s, sub) == Committed(t)
    ensures Settles(rt, s, t, sub, x)
  {
    x := Settled(rt, s, sub).value;
  }

  lemma SettlementChecks(rt: Runtime, s: State, t: State, sub: Submission, x: Settlement)
    requires Settles(rt, s, t, sub, x)
    ensures s.initialized && sub.miner in s.miners && sub.destination in s.tokens
    ensures s.tokens[sub.destination].owner == sub.miner
    ensures s.config.rewardVault in s.tokens && s.config.treasuryVault in s.tokens
    ensures !s.config.paused && s.block.status == BLOCK_STATUS_OPEN
    ensures s.block.expiresAt > 0 ==> sub.clock.now <= s.block.expiresAt
    ensures s.block.blockReward == RewardForBlock(s.config.totalBlocksMined) > 0
    ensures Val(ProofHash(rt, s, sub)) < Val(s.block.difficultyTarget)
    ensures VaultBalance(s) >= s.block.blockReward
  {
    hide RewardForBlock, Settled;
  }

  lemma SettlementParts(rt: Runtime, s: State, t: State, sub: Submission, x: Settlement)
    requires Settles(rt, s, t, sub, x)
    ensures sub.miner in s.miners && x.fee <= s.block.blockReward && FitsU64(s.block.blockNumber + 1)
    ensures TreasuryFee(s.block.blockReward, s.config.treasuryFeeBps) == Some(x.fee)
    ensures SubmissionAccountsError(s, sub).None? && Paid(s, sub, x.fee) == Success(x.payment)
    ensures Credited(s.miners[sub.miner], s.block.blockReward - x.fee, sub.clock.now) == Some(x.stats)
    ensures Counted(s.config, s.block.blockReward, x.fee).Some?
    ensures x.config == Advanced(Counted(s.config, s.block.blockReward, x.fee).value, s.block, sub.clock.now)
    ensures SuccessorExpiry(x.config, RewardForBlock(x.config.totalBlocksMined), sub.clock.now) == Some(x.expiresAt)
  {
    hide RewardForBlock, TreasuryFee, Paid, SubmissionError, Advanced, Credited, Counted, SuccessorExpiry;
  }

  /** The config after a settlement, field by field. */
  lemma SettlementConfig(rt: Runtime, s: State, t: State, sub: Submission, x: Settlement, v: nat)
    requires Settles(rt, s, t, sub, x)
    requires v == RetargetedValue(s.config, ObservedSeconds(sub.clock.now, s.block.openedAt))
    ensures FitsU64(s.block.blockNumber + 1) && FitsU64(s.config.totalBlocksMined + 1)
    ensures FitsU64(s.config.totalRewardsDistributed + s.block.blockReward)
    ensures FitsU64(s.config.totalTreasuryFeesDistributed + x.fee)
    ensures t.config == x.config == s.config.(
      totalBlocksMined := s.config.totalBlocksMined + 1,
      totalRewardsDistributed := s.config.totalRewardsDistributed + s.block.blockReward,
      totalTreasuryFeesDistributed := s.config.totalTreasuryFeesDistributed + x.fee,
      difficultyBits := Retarget.BitsOf(v),
      difficultyTarget := TargetBytes(v),
      lastAdjustmentTimestamp := sub.clock.now,
      lastAdjustmentBlock := s.block.blockNumber + 1,
      currentBlockNumber := s.block.blockNumber + 1)
  {
    hide Settles, RewardForBlock, TargetBytes, Retarget.NextTarget, Retarget.BitsOf;
    SettlementParts(rt, s, t, sub, x);
    var _ := SettlementWrites(rt, s, t, sub, x);
  }

  /** What a settlement leaves in the other records. */
  lemma SettlementWrites(rt: Runtime, s: State, t: State, sub: Submission, x: Settlement) returns (more: seq<Event>)
    requires Settles(rt, s, t, sub, x)
    ensures t.initialized && t.config == x.config && t.sessions == s.sessions
    ensures t.miners == s.miners[sub.miner := x.stats]
    ensures t.tokens == x.payment.tokens && t.lamports == x.payment.lamports
    ensures x.fee <= s.block.blockReward
    ensures t.block == SuccessorBlock(t.config, RewardForBlock(t.config.totalBlocksMined),
      rt.sha(NextChallengePreimage(rt, s, sub, t.config.currentBlockNumber)), sub.clock.now, x.expiresAt)
    ensures t.events == s.events + [Solving(rt, s, sub, x.fee)] + more
    ensures Quiet(more) && OpensOnly(more, t.config.currentBlockNumber)
    ensures forall e :: e in more && e.BlockOpened? ==>
      e.challenge == rt.sha(NextChallengePreimage(rt, s, sub, t.config.currentBlockNumber))
  {
    hide RewardEraForBlock, Settled, SubmissionError;
    var era := RewardEraForBlock(t.config.totalBlocksMined);
    var adjusting := if t.config.difficultyTarget == s.config.difficultyTarget then []
                     else [Adjusting(s.config, t.config, ObservedSeconds(sub.clock.now, s.block.openedAt))];
    more := adjusting + Opening(t.block, era);
    assert t.events == s.events + [Solving(rt, s, sub, x.fee)] + more;
  }

  /** At most one opening, and of block `number`. */
  predicate OpensOnly(more: seq<Event>, number: nat) {
    && (forall i :: 0 <= i < |more| && more[i].BlockOpened? ==> more[i].blockNumber == number)
    && (forall i, j :: 0 <= i < j < |more| ==> !(more[i].BlockOpened? && more[j].BlockOpened?))
  }

  /** One percent, without remainder. */
  lemma FeeIsOnePercent(n: u64, fee: u64)
    requires TreasuryFee(RewardForBlock(n), 100) == Some(fee)
    ensures 100 * fee == RewardForBlock(n)
  {
    hide RewardForBlock;
    RewardSplitsExactly(n);
  }

  /** The payments of a settlement: the vault pays the reward, miner and treasury receive their shares,
      the payer's fee reaches the treasury wallet, and both ledgers keep their totals. */
  lemma PaymentEffect(s: State, sub: Submission, fee: u64, p: Payment)
    requires s.config.rewardVault in s.tokens && s.config.treasuryVault in s.tokens && sub.destination in s.tokens
    requires fee <= s.block.blockReward && Paid(s, sub, fee) == Success(p)
    requires s.config.rewardVault !in {sub.destination, s.config.treasuryVault}
    requires fee > 0 && s.config.submitFeeLamports > 0
    ensures Supply(p.tokens) == Supply(s.tokens) && p.tokens.Keys == s.tokens.Keys
    ensures forall k :: k in s.tokens ==> p.tokens[k].owner == s.tokens[k].owner
    ensures p.tokens[s.config.rewardVault].amount == s.tokens[s.config.rewardVault].amount - s.block.blockReward
    ensures forall k :: k in s.tokens && k != s.config.rewardVault ==>
      p.tokens[k].amount == s.tokens[k].amount
        + (if k == sub.destination then s.block.blockReward - fee else 0)
        + (if k == s.config.treasuryVault then fee else 0)
    ensures Pay(s.lamports, sub.payer, s.config.treasuryAuthority, s.config.submitFeeLamports) == Some(p.lamports)
  {
    hide Supply;
    var share := s.block.blockReward - fee;
    TransferMoves(s.tokens, s.config.rewardVault, sub.destination, share);
    var rewarded := Transfer(s.tokens, s.config.rewardVault, sub.destination, share).value;
    TransferMoves(rewarded, s.config.rewardVault, s.config.treasuryVault, fee);
  }

  /** The facts about a settlement in a state that satisfies the invariant: it pays the scheduled
      reward of the next block, a hundredth of it to the treasury. */
  lemma SettlementAmounts(rt: Runtime, s: State, t: State, sub: Submission, x: Settlement)
    requires Inv(rt, s) && Settles(rt, s, t, sub, x)
    ensures s.initialized && sub.miner in s.miners && sub.destination in s.tokens
    ensures s.config.totalBlocksMined < REWARDED_BLOCKS
    ensures s.block.blockReward == RewardForBlock(s.config.totalBlocksMined) == 100 * x.fee > 0
    ensures s.config.rewardVault !in {sub.destination, s.config.treasuryVault}
    ensures s.config.rewardVault in s.tokens && s.config.treasuryVault in s.tokens
    ensures Paid(s, sub, x.fee) == Success(x.payment)
  {
    hide Settles, RewardForBlock, TreasuryFee, WonBy, Sum, Total;
    SettlementChecks(rt, s, t, sub, x);
    SettlementParts(rt, s, t, sub, x);
    FeeIsOnePercent(s.config.totalBlocksMined, x.fee);
    RewardsNonIncreasing(s.config.totalBlocksMined, s.config.totalBlocksMined);
  }

  lemma SettlementEmission(rt: Runtime, s: State, t: State, sub: Submission, x: Settlement)
    requires Inv(rt, s) && Settles(rt, s, t, sub, x)
    ensures Custody(rt, t) && Emission(t)
    ensures VaultBalance(t) == VaultBalance(s) - s.block.blockReward
  {
    hide Settles, Supply, RewardForBlock, WonBy, Sum, Total, Paid, TargetBytes, Retarget.NextTarget, Retarget.BitsOf,
      Credits, Log, Phase, Agreement;
    SettlementAmounts(rt, s, t, sub, x);
    PaymentEffect(s, sub, x.fee, x.payment);
    var _ := SettlementWrites(rt, s, t, sub, x);
    SettlementConfig(rt, s, t, sub, x, RetargetedValue(s.config, ObservedSeconds(sub.clock.now, s.block.openedAt)));
    RewardWithinRemainder(s.config.totalBlocksMined);
  }

  lemma SettlementAgreement(rt: Runtime, s: State, t: State, sub: Submission, x: Settlement)
    requires Inv(rt, s) && Settles(rt, s, t, sub, x)
    ensures Agreement(t)
  {
    hide Settles, RewardForBlock, WonBy, Sum, Total, Retarget.NextTarget, Retarget.BitsOf, TargetBytes, Credits, Log,
      Emission;
    var observed := ObservedSeconds(sub.clock.now, s.block.openedAt);
    var v := RetargetedValue(s.config, observed);
    SettlementChecks(rt, s, t, sub, x);
    var _ := SettlementWrites(rt, s, t, sub, x);
    SettlementConfig(rt, s, t, sub, x, v);
    Retarget.NextTargetInBounds(Val(s.config.difficultyTarget), observed, Max(s.config.targetBlockTimeSec, 1),
                                s.config.minDifficultyBits, s.config.maxDifficultyBits);
    Retarget.TargetAntitone(s.config.minDifficultyBits, s.config.maxDifficultyBits);
    TargetEncodes(v);
  }

  lemma SettlementPhase(rt: Runtime, s: State, t: State, sub: Submission, x: Settlement)
    requires Inv(rt, s) && Settles(rt, s, t, sub, x)
    ensures Phase(t)
  {
    hide Settles, RewardForBlock, WonBy, Sum, Total, Retarget.NextTarget, Retarget.BitsOf, TargetBytes, Credits, Log,
      Emission, Agreement, Custody;
    SettlementAmounts(rt, s, t, sub, x);
    SettlementParts(rt, s, t, sub, x);
    var _ := SettlementWrites(rt, s, t, sub, x);
    SettlementConfig(rt, s, t, sub, x, RetargetedValue(s.config, ObservedSeconds(sub.clock.now, s.block.openedAt)));
    RewardsNonIncreasing(t.config.totalBlocksMined, t.config.totalBlocksMined);
  }

  lemma SettlementCredits(rt: Runtime, s: State, t: State, sub: Submission, x: Settlement)
    requires Inv(rt, s) && Settles(rt, s, t, sub, x)
    ensures Credits(rt, t)
  {
    hide Settles, RewardForBlock, WonBy, Sum, Total, Found, Earned, Retarget.NextTarget, Retarget.BitsOf,
      TargetBytes, Log, Emission, Agreement, Custody, Phase;
    SettlementAmounts(rt, s, t, sub, x);
    SettlementParts(rt, s, t, sub, x);
    var more := SettlementWrites(rt, s, t, sub, x);
    SettlementConfig(rt, s, t, sub, x, RetargetedValue(s.config, ObservedSeconds(sub.clock.now, s.block.openedAt)));
    RecordWritten(s, t, sub.miner, x.stats);
    var solving := Solving(rt, s, sub, x.fee);
    forall k: Pubkey ensures WonBy(t.events, k) == Recorded(t, k) {
      WonBySnoc(s.events, solving, k);
      WonByOthers(s.events + [solving], more, k);
      assert WonBy(s.events, k) == Recorded(s, k);
    }
  }

  lemma SettlementLog(rt: Runtime, s: State, t: State, sub: Submission, x: Settlement)
    requires Inv(rt, s) && Settles(rt, s, t, sub, x)
    ensures Log(t)
  {
    hide Settles, RewardForBlock, WonBy, Sum, Total, Retarget.NextTarget, Retarget.BitsOf, TargetBytes, Credits,
      Emission, Phase;
    SettlementAmounts(rt, s, t, sub, x);
    var more := SettlementWrites(rt, s, t, sub, x);
    SettlementConfig(rt, s, t, sub, x, RetargetedValue(s.config, ObservedSeconds(sub.clock.now, s.block.openedAt)));
    var solving := Solving(rt, s, sub, x.fee);
    TotalAppended(Solved, s.events, solving, more);
    TotalAppended(StaleRotated, s.events, solving, more);
    TotalAppended(GrossReward, s.events, solving, more);
    TotalAppended(MinerShare, s.events, solving, more);
    TotalAppended(TreasuryShare, s.events, solving, more);
    TotalAppended(SubmitFee, s.events, solving, more);
    OpenedAscendExtends(s.events, [solving] + more, s.config.currentBlockNumber);
    assert t.events == s.events + ([solving] + more);
  }

  lemma SettlementPreserves(rt: Runtime, s: State, t: State, sub: Submission)
    requires Inv(rt, s) && Processed(rt, s, sub) == Committed(t)
    ensures Inv(rt, t) && t.sessions == s.sessions && t.config.totalBlocksMined == s.config.totalBlocksMined + 1
  {
    hide Settles, Processed, RewardForBlock, Credits, Emission, Custody, Phase, Agreement, Log;
    var x := ProcessedSettles(rt, s, t, sub);
    SettlementEmission(rt, s, t, sub, x);
    SettlementAgreement(rt, s, t, sub, x);
    SettlementPhase(rt, s, t, sub, x);
    SettlementCredits(rt, s, t, sub, x);
    SettlementLog(rt, s, t, sub, x);
    var _ := SettlementWrites(rt, s, t, sub, x);
    SettlementConfig(rt, s, t, sub, x, RetargetedValue(s.config, ObservedSeconds(sub.clock.now, s.block.openedAt)));
    SessionsFrame(s, t);
  }
}
